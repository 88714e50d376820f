/**
 * The user records the user list endpoint returns
 * (BullionTest/Models/UserListResponse.swift) and the name a user is shown
 * under.
 */
module Models {
  import opened Common
  import Text

  /** The response envelope of the user list endpoint. */
  datatype UserListResponse = UserListResponse(status: int, message: string, data: UserListData)

  datatype UserListData = UserListData(users: seq<UserRemote>)

  /** One user as the server sends it; every optional key may be absent. */
  datatype UserRemote = UserRemote(
    id: string,
    name: Option<string>,
    firstName: Option<string>,
    lastName: Option<string>,
    email: string,
    gender: Option<string>,
    dateOfBirth: Option<string>,
    phone: Option<string>,
    photo: Option<string>,
    address: Option<string>)

  const Unknown := "Unknown"

  /** `"\(first) \(last)"`, a missing part taken as the empty string. */
  function FullName(user: UserRemote): string {
    user.firstName.GetOr("") + " " + user.lastName.GetOr("")
  }

  /** The name given as `name`, when it is there and not empty. */
  predicate HasOwnName(user: UserRemote) {
    user.name.Some? && user.name.value != []
  }

  /** `CharacterSet.whitespaces`, as a value. */
  const Whitespace: char -> bool := Text.IsWhitespace

  predicate AllWhitespace(s: string) {
    Text.All(s, Whitespace)
  }

  /**
   * `r` is a non-empty stretch of `s` that neither starts nor ends with a
   * member of the set `p`, and only members of `p` lie outside it.
   */
  predicate TrimmedAt(r: string, s: string, i: int, p: char -> bool) {
    && Text.StretchOf(r, s, i, p)
    && r != []
    && !p(r[0]) && !p(r[|r| - 1])
  }

  /** `r` is what is left of `s` once the members of `p` at both ends are removed. */
  ghost predicate TrimmedFrom(r: string, s: string, p: char -> bool) {
    exists i :: TrimmedAt(r, s, i, p)
  }

  /**
   * `displayName`: a non-empty `name` as it is; otherwise the full name with
   * the whitespace at both ends removed (newlines count as content), or
   * `"Unknown"` when only whitespace was there. What is shown is never empty.
   */
  function DisplayName(user: UserRemote): (r: string)
    ensures HasOwnName(user) ==> r == user.name.value
    ensures !HasOwnName(user) && AllWhitespace(FullName(user)) ==> r == Unknown
    ensures !HasOwnName(user) && !AllWhitespace(FullName(user)) ==> TrimmedFrom(r, FullName(user), Whitespace)
    ensures r != []
  {
    if HasOwnName(user) then user.name.value
    else
      var s := FullName(user);
      var full := Text.Trim(s, Whitespace);
      if full == [] then Unknown
      else
        TrimGivesTrimmed(s, Whitespace);
        full
  }

  /** What `Text.Trim` leaves of a string that is not all whitespace is its trimmed form. */
  lemma TrimGivesTrimmed(s: string, p: char -> bool)
    requires !Text.All(s, p)
    ensures TrimmedFrom(Text.Trim(s, p), s, p)
  {
    var r := Text.Trim(s, p);
    var i := |s| - |Text.TrimStart(s, p)|;
    assert TrimmedAt(r, s, i, p);
  }

  /** A string has at most one trimmed form. */
  lemma {:induction false} TrimmedUnique(r1: string, r2: string, s: string, i1: int, i2: int, p: char -> bool)
    requires TrimmedAt(r1, s, i1, p) && TrimmedAt(r2, s, i2, p)
    ensures i1 == i2 && r1 == r2
  {
    assert s[i1] == r1[0] && s[i2] == r2[0];
    var j1, j2 := i1 + |r1|, i2 + |r2|;
    assert s[j1 - 1] == r1[|r1| - 1] && s[j2 - 1] == r2[|r2| - 1];
    assert j1 == j2;
  }

  /** Without an own name, what is shown depends on the first and last names only. */
  lemma OnlyPartsMatter(user: UserRemote, other: UserRemote)
    requires !HasOwnName(user) && !HasOwnName(other)
    requires user.firstName == other.firstName && user.lastName == other.lastName
    ensures DisplayName(user) == DisplayName(other)
  {
  }

  /** No usable name at all is shown as `"Unknown"`. */
  lemma NoNameIsUnknown(user: UserRemote)
    requires !HasOwnName(user)
    requires user.firstName.None? || user.firstName == Some("")
    requires user.lastName.None? || user.lastName == Some("")
    ensures DisplayName(user) == Unknown
  {
    assert FullName(user) == " ";
  }

  /** Both parts given, each already free of whitespace at its ends: they are shown joined by one space. */
  lemma BothPartsJoined(user: UserRemote, first: string, last: string)
    requires !HasOwnName(user)
    requires user.firstName == Some(first) && user.lastName == Some(last)
    requires first != [] && !Whitespace(first[0])
    requires last != [] && !Whitespace(last[|last| - 1])
    ensures DisplayName(user) == first + " " + last
  {
    var s := FullName(user);
    assert s == first + " " + last;
    var r := DisplayName(user);
    assert s[0] == first[0] && s[|s| - 1] == last[|last| - 1];
    assert !AllWhitespace(s);
    var i :| TrimmedAt(r, s, i, Whitespace);
    TrimmedUnique(r, s, s, i, 0, Whitespace);
  }

  /** Only a first name, already free of whitespace at its ends: it is shown as it is. */
  lemma FirstNameAlone(user: UserRemote, first: string)
    requires !HasOwnName(user)
    requires user.firstName == Some(first) && user.lastName.None?
    requires first != [] && !Whitespace(first[0]) && !Whitespace(first[|first| - 1])
    ensures DisplayName(user) == first
  {
    var s := FullName(user);
    assert s == first + " ";
    var r := DisplayName(user);
    assert s[0] == first[0];
    assert !AllWhitespace(s);
    var i :| TrimmedAt(r, s, i, Whitespace);
    assert s[..|first|] == first;
    assert TrimmedAt(first, s, 0, Whitespace);
    TrimmedUnique(r, first, s, i, 0, Whitespace);
  }

  /**
   * A newline is not trimmed: a first name ending in one keeps it. A single
   * input, as a witness that `FirstNameAlone` applies to names ending in a
   * newline, which `whitespaces` leaves alone.
   */
  lemma NewlineKept()
    ensures DisplayName(UserRemote("1", None, Some("Ann\n"), None, "ann@example.com", None, None, None, None, None)) == "Ann\n"
  {
    FirstNameAlone(UserRemote("1", None, Some("Ann\n"), None, "ann@example.com", None, None, None, None, None), "Ann\n");
  }

  /**
   * A name of only spaces is its own name and is shown untrimmed. A single
   * input, as a witness of the first case of `DisplayName`: only an empty
   * `name` falls through, a blank one does not.
   */
  lemma BlankNameShown()
    ensures DisplayName(UserRemote("1", Some("  "), Some("Ann"), None, "ann@example.com", None, None, None, None, None)) == "  "
  {
  }
}
