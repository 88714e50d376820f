# BullionTest networking and form core, in Dafny

BullionTest is an iOS client for a user-administration API. Apart from its
UIKit screens, its logic sits in a few places:

- the HTTP client `NetworkManager`: how a request is built, how the reply of
  a `URLSession` data task is turned into a decoded value or a
  `NetworkError`, how the error message is extracted from a JSON body, the
  `multipart/form-data` body encoder, and a debug truncation of response
  dictionaries;
- the older `NetworkManager`, which is still in the repository: JSON bodies
  only, and it reads error messages differently;
- the endpoint catalogue `APIEndpoint`, which gives each endpoint its path,
  verb and URL;
- the registration form `AddUserViewModel`, which validates its fields in a
  fixed order and reports the error messages to its delegate;
- `UserRemote.displayName`;
- `EnvLoader`, which reads `BASE_URL` from the environment or from a bundled
  `.env` file.

## Modules

Each file holds one module.

- `Common`: Swift's optional, with `??`, and the byte type of `Data`.
- `Text`: the Foundation string behaviour the core relies on:
  - the `whitespaces` and `newlines` character sets;
  - `trimmingCharacters(in:)`;
  - `components(separatedBy: .newlines)`;
  - the searches behind the password and e-mail rules;
  - the decimal rendering of an `Int` by string interpolation.
- `Utf8`: `String.data(using: .utf8)`, with a strict decoder as its inverse.
- `Json`: the values `JSONSerialization` produces, and the `as? [String: Any]` and `as? String` casts.
- `Foundation`:
  - `URLRequest`, `setValue(_:forHTTPHeaderField:)` and the data-task reply;
  - `Result` and the outcome of a typed decode;
  - the platform services, passed in as inputs.
- `APIConfiguration`: `HTTPMethod` and `APIEndpoint`.
- `EnvLoader`: `loadEnvVar` and `baseURL`.
- `Networking`: the current `BullionTest/Networking/NetworkManager.swift`.
- `LegacyNetworking`: the older `BullionTest/NetworkManager.swift`. The two files declare the same type names, so each gets its own module.
- `NetworkVersions`: lemmas on how the two managers agree and differ.
- `Models`: `UserListResponse.swift` and `displayName`.
- `AddUser`: the form checks as functions, and the view model as a class:
  - `Submit` builds the error list step by step;
  - `UpdatePassword` assigns the password field.

## How the source's form is kept

The source mutates state in several places, and the model keeps those as
methods:

- `createMultipartBody` appends to a `Data` value in a loop. `CreateMultipartBody` does the same, and its contract ties the result to the `MultipartBody` function.
- `truncateStrings` copies a dictionary and overwrites entries in a loop. `TruncateStrings` and `TruncateArray` loop the same way, against the `Truncated` and `TruncateValue` functions.
- `performRequest` mutates a `URLRequest`. `BuildRequest` does the same to a local value.
- The older manager builds a `var errorMessage` by overwriting it. `NonSuccessMessage` does the same.
- `loadEnvVar` loops with an early return. So does `LoadEnvVar`.
- `submit` appends to `var errors`, one check at a time. `Submit` calls one method per check.

Pure code in the source stays pure in the model: `parseErrorMessage`, the
response classification, `path`, `method`, `url`, `displayName`,
`isValidPassword` and `isValidEmail` are functions.

The source's services are inputs, gathered in `Foundation.Platform`:

- `URL(string:)`;
- the keychain token;
- `UUID()`;
- `JSONSerialization` in both directions;
- `JSONDecoder`;
- `URLSession`.

`EnvLoader` takes the process environment and the `.env` file contents as
parameters. A `.env` file that is missing or could not be read is passed as
`None`.

The `isValidEmail` pattern `[A-Z0-9a-z._%+-]+@[A-Za-z0-9.-]+\.[A-Za-z]{2,64}`,
matched against the whole string, is stated as the predicate
`MatchesEmailPattern`: some split of the string into the pattern's five
parts exists. `IsValidEmail` is a search that finds the only candidate split:

- the first `@`, because no other part of the pattern admits `@`;
- the last `.` after it, because the top-level domain admits no `.`.

`EmailCheckIsPattern` proves that the search and the pattern agree.

`performRequest` sends `Authorization: Bearer <token>` whenever the keychain
returns a token, so an empty token gives `Bearer ` with nothing after it
(BullionTest/Networking/NetworkManager.swift:48-49).

In `truncateStrings`, an array value is shortened only when it is an array of
objects. An empty array counts as one, and any other array is kept as it is.

## Model

| member | source | states |
|---|---|---|
| Networking.ErrorDescriptionFaithful | BullionTest/Networking/NetworkManager.swift:16-23 | a server error is described by its own message; the three fixed descriptions are pairwise distinct |
| Networking.ParseErrorMessage | BullionTest/Networking/NetworkManager.swift:128-139 | `None` when the body is not a JSON object; otherwise the first of `err_message_en`, `err_message`, `message` whose value is a string, or `None` when none is; the casts are `Json.AsObject` and `Json.StringMember`, the search `Json.FirstStringMember` |
| Networking.MessageKeysFallback | BullionTest/Networking/NetworkManager.swift:131-138 | the key lookup spelled out as the if/else-if chain: `err_message_en` wins, then `err_message`, then `message`, then nothing |
| Networking.DefaultServerMessage | BullionTest/Networking/NetworkManager.swift:87 | the fallback message is `Server returned ` followed by a decimal that parses back to the status code |
| Networking.Classify | BullionTest/Networking/NetworkManager.swift:65-103 | a transport error wins; no data gives `noData`; a non-2xx HTTP status gives a server error with the parsed message or the default; a reached decode that fails gives a server error when any message key is a string, else `decodingError`; success exactly when the decode is reached and succeeds, with the decoded value unchanged; the `as? HTTPURLResponse` cast is `Foundation.StatusCode` |
| Networking.NonSuccessIgnoresDecoder | BullionTest/Networking/NetworkManager.swift:86-90 | for a non-2xx status the result fails and is the same whatever the decoder does, so no decode is attempted |
| Networking.DecodingErrorExactly | BullionTest/Networking/NetworkManager.swift:93-101 | `decodingError` is the result if and only if the decode is reached and fails and the body has none of the three keys as a string |
| Networking.ClassifyNeverInvalidURL | BullionTest/Networking/NetworkManager.swift:65-103 | the completion handler never reports `invalidURL` |
| Networking.CreateMultipartBody | BullionTest/Networking/NetworkManager.swift:106-126 | appending the field lines in a loop, then the optional image part, then the closing line gives exactly `MultipartBody` of the same arguments |
| Networking.FieldStep | BullionTest/Networking/NetworkManager.swift:110-114 | one more parameter appends the encodings of its three lines to the body |
| Networking.EncodeFieldText | BullionTest/Networking/NetworkManager.swift:111-113 | a field part is `--<boundary>` CR LF, the disposition line with the key unescaped, a blank line, then the value and CR LF |
| Networking.EncodeImageHeader | BullionTest/Networking/NetworkManager.swift:117-119 | the image header is the delimiter line, the disposition with `filename="photo.jpg"`, and `Content-Type: image/jpeg` with a blank line |
| Networking.BodyFraming | BullionTest/Networking/NetworkManager.swift:110-124 | the body starts with the encoded field parts and always ends with `--<boundary>--` CR LF |
| Networking.FieldsTextPrefix | BullionTest/Networking/NetworkManager.swift:110-114 | the parts of the first `j` parameters are a prefix of the parts of all of them |
| Networking.FieldPartInFields | BullionTest/Networking/NetworkManager.swift:110-114 | each parameter's part appears unchanged among the encoded field parts, at the offset of the parts before it |
| Networking.FieldPartInBody | BullionTest/Networking/NetworkManager.swift:110-124 | each parameter's part appears unchanged in the whole body, at the offset of the parts before it, with or without an image |
| Networking.BodyWithoutImage | BullionTest/Networking/NetworkManager.swift:116-124 | without image data the body is valid UTF-8 and decodes to the field parts followed by the closing delimiter |
| Networking.BodyWithImage | BullionTest/Networking/NetworkManager.swift:116-122 | with image data the image header follows the field parts, and the image bytes follow the header, copied unchanged |
| Networking.ImagePartIffImageData | BullionTest/Networking/NetworkManager.swift:116-124 | the byte after the field parts and `--<boundary>` is CR exactly when there is image data and `-` exactly when there is none, so an image part is emitted if and only if image data is given |
| Networking.StringParams | BullionTest/Networking/NetworkManager.swift:55 | `body as? [String: String] ?? [:]`: the entries, in order, when every value is a string; no entries otherwise |
| Networking.AsDictionary | BullionTest/Networking/NetworkManager.swift:34-35 | `[String: String]` parameters passed as `[String: Any]`: the same keys, each with its string value |
| Networking.StringParamsRoundTrip | BullionTest/Networking/NetworkManager.swift:35-55 | the parameters `multipartRequest` passes on reach the encoder unchanged |
| Networking.BuildRequest | BullionTest/Networking/NetworkManager.swift:39-61 | no request when `URL(string:)` refuses the URL. Otherwise the endpoint's URL and verb, and `Authorization: Bearer <token>` exactly when the keychain has a token. Multipart: `Content-Type` with boundary `Boundary-<uuid>` and the multipart body. JSON: `application/json` and the serialised body, or no body when serialisation throws. The header value is `Foundation.BearerValue`, the `try?` is `Foundation.TrySerialize` |
| Networking.PerformRequest | BullionTest/Networking/NetworkManager.swift:38-103 | an unusable URL sends nothing and completes with `invalidURL`; otherwise the prepared request is sent and the completion receives the classification of its reply |
| Networking.Request | BullionTest/Networking/NetworkManager.swift:30-32 | a JSON request: `Content-Type: application/json`, the serialised body or none, and the reply classified |
| Networking.MultipartRequest | BullionTest/Networking/NetworkManager.swift:34-36 | a multipart request whose body is the encoding of exactly the given parameters and image under `Boundary-<uuid>`, with the matching `Content-Type` |
| Networking.DefaultImageKeyIsPhoto | BullionTest/Networking/NetworkManager.swift:55 | a multipart call without an image key names the image field `photo` |
| Networking.Truncated | BullionTest/Networking/NetworkManager.swift:141-153 | the truncated dictionary has the same key set |
| Networking.TruncateStrings | BullionTest/Networking/NetworkManager.swift:141-153 | copying the dictionary and overwriting entries key by key gives `Truncated` of it |
| Networking.TruncateArray | BullionTest/Networking/NetworkManager.swift:148-149 | an array of objects is mapped element by element through the truncation, keeping its length and order |
| Networking.TruncatedEntries | BullionTest/Networking/NetworkManager.swift:144-150 | a string over 100 characters becomes its first 100 followed by `...`; a shorter string is kept; a nested object becomes its truncation; an array of objects keeps its length and each element becomes its truncation; any other array or value is kept |
| Networking.TruncateValueIdempotent | BullionTest/Networking/NetworkManager.swift:141-153 | truncating a value twice gives the same as truncating it once |
| Networking.TruncatedIdempotent | BullionTest/Networking/NetworkManager.swift:141-153 | truncating a dictionary twice gives the same as truncating it once |
| LegacyNetworking.FallbackMessage | BullionTest/NetworkManager.swift:78-88 | the non-2xx message is the default `Server returned <code>` unless the body is an object with a string under one of the three keys, the first one winning |
| LegacyNetworking.NonSuccessMessage | BullionTest/NetworkManager.swift:78-88 | starting from the default and overwriting it in the if/else-if chain gives `FallbackMessage` |
| LegacyNetworking.FallbackMessageDefault | BullionTest/NetworkManager.swift:78-88 | the message is the default exactly when the current `parseErrorMessage` finds nothing, and otherwise is what it finds |
| LegacyNetworking.Classify | BullionTest/NetworkManager.swift:57-108 | a transport error wins; no data gives `noData`; a non-2xx HTTP status gives a server error with the fallback message; a response that is not HTTP goes straight to the decode; a failed decode gives a server error only for an `err_message_en` string, else `decodingError`; success exactly when the decode is reached and succeeds; the `err_message_en` lookup of lines 102-103 is `LegacyNetworking.EnglishMessage` |
| LegacyNetworking.Complete | BullionTest/NetworkManager.swift:57-108 | the completion handler, step by step, gives `Classify` of the reply |
| LegacyNetworking.OtherKeysIgnoredOnDecodeFailure | BullionTest/NetworkManager.swift:101-107 | after a reached decode failure, a body whose `err_message_en` is not a string gives `decodingError`, whatever `err_message` and `message` hold |
| LegacyNetworking.Request | BullionTest/NetworkManager.swift:30-110 | nothing is sent when the URL is refused (`invalidURL`) or serialising the body throws (that error). Otherwise a request with `Content-Type: application/json`, `Authorization` exactly when there is a token, and the serialised body; then its reply is classified |
| NetworkVersions.AsLegacyInjective | BullionTest/NetworkManager.swift:29 | reading a result of the current manager as one of the older (`NetworkVersions.AsLegacy`: same success value, same transport or network error) loses nothing: two results read alike if and only if they are equal |
| NetworkVersions.AgreeUnlessDecodeFails | BullionTest/NetworkManager.swift:57-97 | whenever the decode is not reached or succeeds, both managers give the same result |
| NetworkVersions.AgreeOnEnglishMessage | BullionTest/NetworkManager.swift:101-104 | when `err_message_en` is a string, both managers give the same result |
| NetworkVersions.DifferExactly | BullionTest/NetworkManager.swift:101-107 | the managers differ if and only if a reached decode fails, `err_message_en` is not a string and `err_message` or `message` is; the current one then reports that message and the older one `decodingError`; the `!=` compares the older result with the current one read through `NetworkVersions.AsLegacy`, which `AsLegacyInjective` shows loses nothing |
| NetworkVersions.DifferOnPlainErrorMessage | BullionTest/NetworkManager.swift:102-106 | a 200 reply whose body has only `err_message` and does not decode separates the two managers |
| NetworkVersions.SameJsonRequest | BullionTest/NetworkManager.swift:36-52 | when the body serialises or there is none, both managers prepare the same JSON request |
| NetworkVersions.SerializationFailureDiffers | BullionTest/NetworkManager.swift:45-51 | when serialisation throws, the current manager prepares a request without a body while the older one prepares none |
| APIConfiguration.FromRawValue | BullionTest/APIConfiguration.swift:10-15 | `init?(rawValue:)` succeeds exactly on `GET`, `POST`, `PUT` and `DELETE` |
| APIConfiguration.RawValueRoundTrip | BullionTest/APIConfiguration.swift:10-15 | each verb's raw value maps back to that verb, and a raw value that maps to a verb is that verb's raw value |
| APIConfiguration.Path | BullionTest/APIConfiguration.swift:23-34 | the two auth paths; `adminList` as `/api/v1/admin?offset=<o>&limit=<l>` in decimal; `userDetail` as `/api/v1/admin/<id>` with the id verbatim |
| APIConfiguration.VerbFollowsPath | BullionTest/APIConfiguration.swift:23-43 | `method` (`APIConfiguration.Method`) can be read off `path`: POST exactly for the paths under `/api/v1/auth/`, GET exactly for those under `/api/v1/admin` |
| APIConfiguration.Url | BullionTest/APIConfiguration.swift:45-47 | the base URL is a prefix and the path the rest of the URL |
| APIConfiguration.DecimalHasNoAmpersand | BullionTest/APIConfiguration.swift:30 | an interpolated number never contains `&`, so the `&limit=` separator is found unambiguously |
| APIConfiguration.PathMarks | BullionTest/APIConfiguration.swift:23-34 | the characters at positions 9 and 13 tell the four kinds of path apart |
| APIConfiguration.AdminListPathShape | BullionTest/APIConfiguration.swift:29-30 | an `adminList` path is its prefix, the offset digits, `&` and the limit part |
| APIConfiguration.AdminListPathInjective | BullionTest/APIConfiguration.swift:29-30 | an `adminList` path determines both its offset and its limit |
| APIConfiguration.PathInjective | BullionTest/APIConfiguration.swift:23-34 | different endpoints have different paths |
| APIConfiguration.UrlInjective | BullionTest/APIConfiguration.swift:45-47 | under one base URL, two endpoints give the same URL if and only if they are the same endpoint |
| EnvLoader.SplitOnce | BullionTest/EnvLoader.swift:29 | `split(separator: "=", maxSplits: 1)`: at most two pieces, none empty, the first free of `=` |
| EnvLoader.SplitKeyValue | BullionTest/EnvLoader.swift:29 | a line `k=v`, with `k` non-empty and free of `=` and `v` non-empty, splits into exactly `k` and `v`, even when `v` holds more `=` |
| EnvLoader.SplitDegenerate | BullionTest/EnvLoader.swift:29-30 | a line with no `=`, or with nothing on one side of it (`KEY=`, `=v`), gives fewer than two pieces and is ignored |
| EnvLoader.FirstSome | BullionTest/EnvLoader.swift:28-33 | the first element with a result gives the answer; `None` exactly when no element has one |
| EnvLoader.LoadEnvVar | BullionTest/EnvLoader.swift:15-36 | the environment's value when the key is set there; `None` without a file; otherwise the trimmed value of the first line whose trimmed key matches, or `None` |
| EnvLoader.FirstMatchStep | BullionTest/EnvLoader.swift:28-33 | scanning from a line on gives that line's value if it matches, and otherwise the first match after it |
| EnvLoader.FirstMatchIgnoresLaterLines | BullionTest/EnvLoader.swift:28-33 | once a line has matched, later lines, duplicates included, do not change the answer |
| EnvLoader.WellFormedLineMatches | BullionTest/EnvLoader.swift:29-31 | a line `key=value` without blanks at the ends of key or value gives back exactly that value |
| EnvLoader.PaddedLineMatches | BullionTest/EnvLoader.swift:30-31 | blanks around the key and around the value do not matter |
| EnvLoader.BaseURL | BullionTest/EnvLoader.swift:11-13 | `BASE_URL` from the environment or the file, and otherwise `https://api-test.bullionecosystem.com` |
| Models.DisplayName | BullionTest/Models/UserListResponse.swift:32-40 | a non-empty `name` as it is; otherwise the full name with whitespace trimmed at both ends, or `Unknown` when only whitespace is left; never empty |
| Models.TrimGivesTrimmed | BullionTest/Models/UserListResponse.swift:38 | trimming a string that is not all whitespace gives its trimmed form |
| Models.TrimmedUnique | BullionTest/Models/UserListResponse.swift:38 | a string has at most one trimmed form, so the trimmed full name is determined |
| Models.OnlyPartsMatter | BullionTest/Models/UserListResponse.swift:36-39 | without an own name, the name shown depends only on the first and last names |
| Models.NoNameIsUnknown | BullionTest/Models/UserListResponse.swift:36-39 | with no usable name at all, `Unknown` is shown |
| Models.BothPartsJoined | BullionTest/Models/UserListResponse.swift:36-38 | first and last names without blanks at their outer ends are shown joined by one space |
| Models.FirstNameAlone | BullionTest/Models/UserListResponse.swift:36-38 | a first name alone, without blanks at its ends, is shown as it is; the space added for the missing last name is trimmed |
| Models.NewlineKept | BullionTest/Models/UserListResponse.swift:38 | newlines are not trimmed: a first name ending in one keeps it |
| Models.BlankNameShown | BullionTest/Models/UserListResponse.swift:33-35 | a `name` of only spaces is non-empty, so it is shown untrimmed |
| AddUser.PasswordRule | BullionTest/ViewModels/AddUserViewModel.swift:145-153 | a password is valid if and only if it has at least 8 characters, a capital A-Z and a digit; the letter test is implied |
| AddUser.EmailCheckIsPattern | BullionTest/ViewModels/AddUserViewModel.swift:139-143 | the e-mail check accepts exactly the strings the whole pattern matches |
| AddUser.NameGivenIsTrimmed | BullionTest/ViewModels/AddUserViewModel.swift:75 | a name passes when it is present and trimming whitespace and newlines leaves something |
| AddUser.MessageInjective | BullionTest/ViewModels/AddUserViewModel.swift:69-128 | the twelve error messages are pairwise distinct, so a message names its problem |
| AddUser.PhotoIssue | BullionTest/ViewModels/AddUserViewModel.swift:69-72 | the photo check can only report a problem of check 1 |
| AddUser.NameIssue | BullionTest/ViewModels/AddUserViewModel.swift:74-79 | the name check can only report a problem of check 2 |
| AddUser.GenderIssue | BullionTest/ViewModels/AddUserViewModel.swift:81-84 | the gender check can only report a problem of check 3 |
| AddUser.DobIssue | BullionTest/ViewModels/AddUserViewModel.swift:86-91 | the date-of-birth check can only report a problem of check 4 |
| AddUser.EmailIssue | BullionTest/ViewModels/AddUserViewModel.swift:93-100 | the e-mail check can only report a problem of check 5 |
| AddUser.PhoneIssue | BullionTest/ViewModels/AddUserViewModel.swift:102-109 | the phone check can only report a problem of check 6 |
| AddUser.PasswordIssue | BullionTest/ViewModels/AddUserViewModel.swift:111-118 | the password check can only report a problem of check 7 |
| AddUser.ConfirmIssue | BullionTest/ViewModels/AddUserViewModel.swift:120-128 | the confirmation check can only report a problem of check 8 |
| AddUser.Evaluate | BullionTest/ViewModels/AddUserViewModel.swift:66-128 | every check's outcome is a problem of that check or none |
| AddUser.Reported | BullionTest/ViewModels/AddUserViewModel.swift:69-128 | each check adds at most one message |
| AddUser.ErrorsInCheckOrder | BullionTest/ViewModels/AddUserViewModel.swift:69-128 | at most eight messages; message `i` is that of problem `i`; problems appear in strictly increasing check order (photo, name, gender, date of birth, e-mail, phone, password, confirmation) |
| AddUser.ListedIffFound | BullionTest/ViewModels/AddUserViewModel.swift:69-128 | a message is in the list if and only if some check found its problem |
| AddUser.FoundAtItsCheck | BullionTest/ViewModels/AddUserViewModel.swift:69-128 | a problem is found by some check if and only if its own check found it |
| AddUser.MessageListed | BullionTest/ViewModels/AddUserViewModel.swift:69-128 | a message is in the list if and only if its own check found its problem |
| AddUser.SubmitSucceedsExactly | BullionTest/ViewModels/AddUserViewModel.swift:66-134 | the list is empty, so success is reported, if and only if every field passes: photo, a non-blank name, a gender, a date of birth, an e-mail matching the pattern, an all-digit phone, a valid password and an equal confirmation |
| AddUser.PhotoRule | BullionTest/ViewModels/AddUserViewModel.swift:69-72 | "Profile photo is required." is listed if and only if there is no photo |
| AddUser.NameRule | BullionTest/ViewModels/AddUserViewModel.swift:74-79 | "Name is required." is listed if and only if the name is nil or only whitespace and newlines |
| AddUser.GenderRule | BullionTest/ViewModels/AddUserViewModel.swift:81-84 | "Gender is required." is listed if and only if `genderIndex` is -1 |
| AddUser.DobRule | BullionTest/ViewModels/AddUserViewModel.swift:86-91 | "Date of Birth is required." is listed if and only if the date of birth is nil or empty |
| AddUser.EmailRequiredRule | BullionTest/ViewModels/AddUserViewModel.swift:93-100 | "Email is required." is listed if and only if the e-mail is nil or empty |
| AddUser.EmailFormatRule | BullionTest/ViewModels/AddUserViewModel.swift:93-100 | "Invalid email format." is listed if and only if the e-mail is non-empty and does not match the pattern |
| AddUser.PhoneRequiredRule | BullionTest/ViewModels/AddUserViewModel.swift:102-109 | "Phone number is required." is listed if and only if the phone is nil or empty |
| AddUser.PhoneDigitsRule | BullionTest/ViewModels/AddUserViewModel.swift:102-109 | "Phone number must contain only numbers." is listed if and only if the phone is non-empty and has a character outside `0`-`9` |
| AddUser.PasswordRequiredRule | BullionTest/ViewModels/AddUserViewModel.swift:111-118 | "Password is required." is listed if and only if the password is nil |
| AddUser.PasswordStrengthRule | BullionTest/ViewModels/AddUserViewModel.swift:111-118 | "Password does not meet requirements." is listed if and only if a password is given and fails the rule |
| AddUser.PasswordsDifferRule | BullionTest/ViewModels/AddUserViewModel.swift:120-128 | "Passwords do not match." is listed if and only if both are given and differ |
| AddUser.ConfirmRequiredRule | BullionTest/ViewModels/AddUserViewModel.swift:120-128 | "Please confirm your password." is listed if and only if the confirmation is nil, so a confirmation without a password adds nothing |
| AddUser.AddUserViewModel.constructor | BullionTest/ViewModels/AddUserViewModel.swift:21-30 | every field empty and no gender selected (-1) |
| AddUser.AddUserViewModel.UpdatePassword | BullionTest/ViewModels/AddUserViewModel.swift:34-41 | stores the text as the password and changes nothing else; reports `isValid` equal to the password rule, with "Password requirements met." or the hint |
| AddUser.UpdatedPasswordCheck | BullionTest/ViewModels/AddUserViewModel.swift:34-41 | after `updatePassword(text)` the password check of `submit` passes if and only if the update was reported valid |
| AddUser.AddUserViewModel.Submit | BullionTest/ViewModels/AddUserViewModel.swift:66-135 | the delegate call is `onValidationSuccess` when the list is empty and `onValidationFailure` with the whole list otherwise |
| AddUser.AddUserViewModel.CheckPhoto | BullionTest/ViewModels/AddUserViewModel.swift:69-72 | appends the photo message exactly when the photo check fails |
| AddUser.AddUserViewModel.CheckName | BullionTest/ViewModels/AddUserViewModel.swift:74-79 | appends the name message exactly when the name check fails |
| AddUser.AddUserViewModel.CheckGender | BullionTest/ViewModels/AddUserViewModel.swift:81-84 | appends the gender message exactly when no gender is selected |
| AddUser.AddUserViewModel.CheckDob | BullionTest/ViewModels/AddUserViewModel.swift:86-91 | appends the date-of-birth message exactly when the date is nil or empty |
| AddUser.AddUserViewModel.CheckEmail | BullionTest/ViewModels/AddUserViewModel.swift:93-100 | appends one of the two e-mail messages, or none, as the e-mail check decides |
| AddUser.AddUserViewModel.CheckPhone | BullionTest/ViewModels/AddUserViewModel.swift:102-109 | appends one of the two phone messages, or none, as the phone check decides |
| AddUser.AddUserViewModel.CheckPassword | BullionTest/ViewModels/AddUserViewModel.swift:111-118 | appends one of the two password messages, or none, as the password check decides |
| AddUser.AddUserViewModel.CheckConfirmation | BullionTest/ViewModels/AddUserViewModel.swift:120-128 | appends one of the two confirmation messages, or none, as the confirmation check decides |
| Text.Trim | BullionTest/Models/UserListResponse.swift:38 | `trimmingCharacters(in:)`: a stretch of the string with only set members outside it; it neither starts nor ends with one; empty exactly when the whole string is in the set |
| Text.TrimUnchanged | BullionTest/EnvLoader.swift:30-31 | a string that neither starts nor ends with a member of the set is left as it is |
| Text.Lines | BullionTest/EnvLoader.swift:27 | `components(separatedBy: .newlines)`: at least one component, and no component contains a newline character |
| Text.LinesRoundTrip | BullionTest/EnvLoader.swift:27 | splitting into lines loses nothing: one more component than newline characters, and putting them back rebuilds the text |
| Text.Contains | BullionTest/ViewModels/AddUserViewModel.swift:148-150 | a range search succeeds exactly when some character is in the range |
| Text.IndexOf | BullionTest/ViewModels/AddUserViewModel.swift:140-142 | the first occurrence of a character, or `None` exactly when it does not occur |
| Text.LastIndexOf | BullionTest/ViewModels/AddUserViewModel.swift:140-142 | the last occurrence of a character, or `None` exactly when it does not occur |
| Text.IntToDecimal | BullionTest/APIConfiguration.swift:30 | interpolation of an `Int`: non-empty, digits with a minus sign only in front |
| Text.IntToDecimalRoundTrip | BullionTest/APIConfiguration.swift:30 | parsing the interpolated number gives the number back |
| Text.IntToDecimalInjective | BullionTest/APIConfiguration.swift:30 | different numbers are interpolated differently |
| Utf8.Encode | BullionTest/Networking/NetworkManager.swift:156-162 | a string's UTF-8 encoding has at least as many bytes as the string has characters |
| Utf8.DecodeEncode | BullionTest/Networking/NetworkManager.swift:156-162 | decoding the encoding gives the string back |
| Utf8.EncodeAppend | BullionTest/Networking/NetworkManager.swift:156-162 | appending strings one after the other appends the encoding of their concatenation |
| Utf8.EncodeAscii | BullionTest/Networking/NetworkManager.swift:156-162 | characters below U+0080 encode as themselves, one byte each |
| Utf8.EncodeInjective | BullionTest/Networking/NetworkManager.swift:156-162 | different strings have different encodings |
| Json.FirstStringMember | BullionTest/Networking/NetworkManager.swift:131-138 | the first key whose member is a string gives the answer; `None` exactly when no key has one |
| Foundation.SetValue | BullionTest/Networking/NetworkManager.swift:49-57 | `setValue(_:forHTTPHeaderField:)` sets one field, replacing an earlier value, and leaves the URL, verb, body and other fields alone |

## Left out

- Characters: a Swift `Character` is a grapheme cluster, and the model's `char` is a Unicode scalar value. The two differ for every cluster of more than one scalar: combining sequences, CR LF, flags made of regional indicators, emoji joined by ZWJ or carrying modifiers, Hangul jamo sequences. Swift's `==` and `!=` on strings also compare by canonical equivalence, and the model compares scalar by scalar. The members below inherit these differences.
- IsValidPassword: `pass.count < 8` counts grapheme clusters, the model counts scalars, so "Abc1🇮🇩🇮🇩" (6 characters, 8 scalars) is rejected by the source and accepted by the model.
- PasswordRule: states the 8-character bound in scalars, for the same reason as IsValidPassword.
- TruncateValue: `str.count > 100` and `str.prefix(100)` count and cut at grapheme-cluster boundaries, the model at scalar boundaries.
- TruncatedEntries: states the 100-character limit and the cut in scalars, for the same reason as TruncateValue.
- ConfirmIssue: `confirm != pass` compares by canonical equivalence, the model by scalars, so "Café1234" (precomposed é) against "Cafe\u{0301}1234" is a mismatch in the model but not in the source.
- PasswordsDifferRule: "differ" is scalar inequality, for the same reason as ConfirmIssue.
- SubmitSucceedsExactly: "an equal confirmation" is scalar equality, for the same reason as ConfirmIssue, and "an all-digit phone" admits only `0`-`9`, for the same reason as PhoneDigitsRule.
- SplitOnce: `split(separator: "=")` splits at `=` Characters, the model at `=` scalars, so a `=` followed by a combining mark (one Character, such as "=\u{0338}") is a split point in the model and not in the source.
- SplitKeyValue: claims the split also when `v` starts with a combining mark, for the same reason as SplitOnce.
- LineValue: inherits the split of SplitOnce, and compares the trimmed key by scalars where Swift's `==` uses canonical equivalence ("\u{212A}EY", with the Kelvin sign, equals "KEY" in Swift and not in the model).
- LoadEnvVar: inherits the split and the key comparison of LineValue.
- WellFormedLineMatches: claims the match also when the value starts with a combining mark, for the same reason as SplitOnce.
- PaddedLineMatches: claims the match also when the value starts with a combining mark, for the same reason as SplitOnce.
- `decimalDigits`: `CharacterSet.decimalDigits` holds every Unicode decimal digit, and the model admits only `0`-`9`. The phone check is therefore stricter in the model for non-ASCII digits.
- PhoneDigitsRule: `CharacterSet.decimalDigits` (BullionTest/ViewModels/AddUserViewModel.swift:104) holds every Unicode decimal digit (general category Nd), and the model's digit test `Text.IsAsciiDigit` admits only `0`-`9`. So a phone of Arabic-Indic digits such as "٠١٢٣" passes the source's check and gets "Phone number must contain only numbers." in the model.
- PhoneIssue: states check 6 with the `0`-`9` digit test, for the same reason as PhoneDigitsRule.
- Header field names: the model compares them exactly, where `URLRequest` ignores case. The core only ever sets `Content-Type` and `Authorization`, each under one spelling.
- Logging: every `print`, the `String(data:encoding:)` debug dump of the older manager, and the call of `truncateStrings` at BullionTest/Networking/NetworkManager.swift:78-81 are left out. None of them affects a result. `truncateStrings` itself is modelled.
- Transport and threading: `URLSession` is left out, and so are the asynchronous completion, `resume()` and the callback's `@escaping` lifetime. The reply is an input, and the completion's argument is a method result.
- `URL(string:)`, `JSONSerialization` (both directions), `JSONDecoder`, the keychain read and `UUID()` are inputs (`Foundation.Platform`), not code.
- BullionTest/KeychainHelper.swift is not part of this model. The token is an optional input.
- `AddUserViewModel.setPhoto` is left out, because it depends on `UIImage` JPEG encoding. A photo is an opaque value.
- Delegate: the weak `delegate` is not modelled as an object. `Submit` and `UpdatePassword` return the call they make on it. A `nil` delegate, when no call happens, is not distinguished.
- Dictionary order: `[String: Any]` and `[String: String]` are ordered sequences of entries. Every property of the multipart encoder holds for whatever order Swift's dictionary iteration yields. The conversion of the parameters to `[String: Any]` (BullionTest/Networking/NetworkManager.swift:35) and the cast back (line 55) build new dictionaries whose iteration order Swift does not promise to keep; the model keeps one order through both (`StringParamsRoundTrip`, `MultipartRequest`), so the same entries arrive, possibly in another order in the source.
- Integer width: Swift's `Int` is 64 bits, and the model's integers are unbounded. No operation of the core does arithmetic on them.
- JSON numbers, booleans and `null` are kept as opaque scalars, because the core never looks inside them.
- Shared error type: the older manager's `NetworkError` is identical to the current one, so both modules use `Networking.NetworkError`.
- `Bundle.main.path(forResource:)` and `String(contentsOfFile:)` are one optional input, the `.env` contents.
- The UIKit screens and helpers (`Views`, `UIView+Gradient.swift`, `UIViewController+Loading.swift`) are not part of this model. Neither are `UserListViewModel`, `SignInViewModel`, `UserModel` and `BaseResponse`: they only pass values along.
- The envelope types `UserListResponse` and `UserListData` are plain datatypes with no operations.
