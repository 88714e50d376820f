/**
 * BullionTest/EnvLoader.swift: looking a variable up in the process
 * environment and then in a bundled `.env` file, and the base URL that the
 * endpoint catalogue is built on. The environment and the file's contents
 * (`None` when the bundle has no `.env` or it cannot be read) are inputs.
 */
module EnvLoader {
  import opened Common
  import opened Text

  const BaseURLKey := "BASE_URL"
  const DefaultBaseURL := "https://api-test.bullionecosystem.com"

  /**
   * `line.split(separator: sep, maxSplits: 1)` with Swift's default of
   * omitting empty pieces. An omitted empty piece does not use up the one
   * split, so separators at the front are skipped; after the first piece the
   * rest of the line, separators included, is the second piece when it is
   * not empty.
   */
  function SplitOnce(s: string, sep: char): (r: seq<string>)
    ensures |r| <= 2
    ensures forall k :: 0 <= k < |r| ==> r[k] != []
    ensures |r| >= 1 ==> sep !in r[0]
  {
    if s == [] then []
    else if s[0] == sep then SplitOnce(s[1..], sep)
    else match IndexOf(s, sep)
      case None => [s]
      case Some(i) => [s[..i]] + (if i + 1 < |s| then [s[i + 1..]] else [])
  }

  /**
   * A line `k=v` with a non-empty `k` free of `=` and a non-empty `v` splits
   * into exactly `k` and `v`, whatever `v` holds (further `=` included).
   */
  lemma SplitKeyValue(k: string, v: string)
    requires k != [] && '=' !in k && v != []
    ensures SplitOnce(k + "=" + v, '=') == [k, v]
  {
    var s := k + "=" + v;
    assert s[0] == k[0];
    FirstEquals(k, v);
    assert s[..|k|] == k && s[|k| + 1..] == v;
  }

  lemma {:induction false} FirstEquals(k: string, v: string)
    requires '=' !in k
    ensures IndexOf(k + "=" + v, '=') == Some(|k|)
  {
    if k != [] {
      assert (k + "=" + v)[1..] == k[1..] + "=" + v;
      FirstEquals(k[1..], v);
    }
  }

  /** Lines with no `=`, or with nothing on one side of it, give fewer than two pieces. */
  lemma SplitDegenerate(k: string)
    requires '=' !in k
    ensures |SplitOnce(k, '=')| <= 1
    ensures |SplitOnce(k + "=", '=')| <= 1
    ensures |SplitOnce("=" + k, '=')| <= 1
  {
    assert k != [] ==> k[0] != '=';
    if k != [] {
      FirstEquals(k, "");
      assert k + "=" + "" == k + "=";
    }
    assert ("=" + k)[1..] == k;
  }

  /** What one line contributes for `key`: its trimmed value when it splits in two around a trimmed key equal to `key`. */
  function LineValue(line: string, key: string): Option<string> {
    var parts := SplitOnce(line, '=');
    if |parts| == 2 && Trim(parts[0], IsWhitespace) == key then Some(Trim(parts[1], IsWhitespace))
    else None
  }

  /** The result of `f` on the first element of `xs` for which it is not `None`. */
  function FirstSome<T, U>(xs: seq<T>, f: T -> Option<U>): (r: Option<U>)
    ensures r.None? <==> forall k :: 0 <= k < |xs| ==> f(xs[k]).None?
    ensures r.Some? ==> exists k :: (0 <= k < |xs| && f(xs[k]) == r
      && forall j :: 0 <= j < k ==> f(xs[j]).None?)
  {
    if xs == [] then None
    else if f(xs[0]).Some? then f(xs[0])
    else
      assert forall k :: 1 <= k < |xs| ==> xs[k] == xs[1..][k - 1];
      FirstSome(xs[1..], f)
  }

  /** The value of the first line that matches `key`. */
  function FirstMatch(lines: seq<string>, key: string): Option<string> {
    FirstSome(lines, line => LineValue(line, key))
  }

  /** What `loadEnvVar(key)` returns. */
  function EnvValue(key: string, environment: map<string, string>, dotEnv: Option<string>): Option<string> {
    if key in environment then Some(environment[key])
    else if dotEnv.None? then None
    else FirstMatch(Lines(dotEnv.value), key)
  }

  /**
   * `loadEnvVar`: the environment first; otherwise the first line of the
   * `.env` contents that matches.
   */
  method LoadEnvVar(key: string, environment: map<string, string>, dotEnv: Option<string>)
    returns (value: Option<string>)
    ensures value == EnvValue(key, environment, dotEnv)
    ensures key in environment ==> value == Some(environment[key])
    ensures key !in environment && dotEnv.None? ==> value.None?
  {
    if key in environment {
      return Some(environment[key]);
    }
    if dotEnv.None? {
      return None;
    }
    var lines := Lines(dotEnv.value);
    var i := 0;
    while i < |lines|
      invariant 0 <= i <= |lines|
      invariant FirstMatch(lines, key) == FirstMatch(lines[i..], key)
    {
      FirstMatchStep(lines, i, key);
      var parts := SplitOnce(lines[i], '=');
      if |parts| == 2 && Trim(parts[0], IsWhitespace) == key {
        return Some(Trim(parts[1], IsWhitespace));
      }
      i := i + 1;
    }
    return None;
  }

  /** The first match from line `i` on is line `i`'s value, or else the first match after it. */
  lemma FirstMatchStep(lines: seq<string>, i: int, key: string)
    requires 0 <= i < |lines|
    ensures FirstMatch(lines[i..], key) ==
      if LineValue(lines[i], key).Some? then LineValue(lines[i], key) else FirstMatch(lines[i + 1..], key)
  {
    assert lines[i..][0] == lines[i] && lines[i..][1..] == lines[i + 1..];
  }

  /** `baseURL`: the `BASE_URL` variable, or the fixed test server. */
  method BaseURL(environment: map<string, string>, dotEnv: Option<string>) returns (url: string)
    ensures url == EnvValue(BaseURLKey, environment, dotEnv).GetOr(DefaultBaseURL)
    ensures BaseURLKey in environment ==> url == environment[BaseURLKey]
    ensures BaseURLKey !in environment && dotEnv.None? ==> url == DefaultBaseURL
  {
    var value := LoadEnvVar(BaseURLKey, environment, dotEnv);
    url := value.GetOr(DefaultBaseURL);
  }

  lemma {:induction false} FirstSomeIgnoresLater<T, U>(xs: seq<T>, more: seq<T>, f: T -> Option<U>)
    requires FirstSome(xs, f).Some?
    ensures FirstSome(xs + more, f) == FirstSome(xs, f)
  {
    assert (xs + more)[0] == xs[0];
    if f(xs[0]).None? {
      assert (xs + more)[1..] == xs[1..] + more;
      FirstSomeIgnoresLater(xs[1..], more, f);
    }
  }

  /** Once a line has matched, no later line, duplicates included, changes the answer. */
  lemma FirstMatchIgnoresLaterLines(lines: seq<string>, more: seq<string>, key: string)
    requires FirstMatch(lines, key).Some?
    ensures FirstMatch(lines + more, key) == FirstMatch(lines, key)
  {
    FirstSomeIgnoresLater(lines, more, line => LineValue(line, key));
  }

  /** A line `key=value` whose key and value carry no surrounding blanks gives back exactly that value. */
  lemma WellFormedLineMatches(key: string, value: string)
    requires key != [] && '=' !in key
    requires !IsWhitespace(key[0]) && !IsWhitespace(key[|key| - 1])
    requires value != [] && !IsWhitespace(value[0]) && !IsWhitespace(value[|value| - 1])
    ensures LineValue(key + "=" + value, key) == Some(value)
  {
    SplitKeyValue(key, value);
    TrimUnchanged(key, IsWhitespace);
    TrimUnchanged(value, IsWhitespace);
  }

  /** Blanks around the key and the value do not matter. */
  lemma PaddedLineMatches(key: string, value: string, pad: string)
    requires key != [] && '=' !in key && '=' !in pad
    requires !IsWhitespace(key[0]) && !IsWhitespace(key[|key| - 1])
    requires value != [] && !IsWhitespace(value[0]) && !IsWhitespace(value[|value| - 1])
    requires forall k :: 0 <= k < |pad| ==> IsWhitespace(pad[k])
    ensures LineValue(key + pad + "=" + pad + value + pad, key) == Some(value)
  {
    PaddedSplit(key, value, pad);
    TrimPaddedSides(key, [], pad);
    assert [] + key + pad == key + pad;
    TrimPaddedSides(value, pad, pad);
  }

  /** A padded line splits around its first `=` into the padded key and the padded value. */
  lemma PaddedSplit(key: string, value: string, pad: string)
    requires key != [] && '=' !in key && '=' !in pad && value != []
    ensures SplitOnce(key + pad + "=" + pad + value + pad, '=') == [key + pad, pad + value + pad]
  {
    var k', v' := key + pad, pad + value + pad;
    assert key + pad + "=" + pad + value + pad == k' + "=" + v';
    assert '=' !in k' by {
      forall i | 0 <= i < |k'| ensures k'[i] != '=' {
        if i >= |key| { assert k'[i] == pad[i - |key|]; } else { assert k'[i] == key[i]; }
      }
    }
    SplitKeyValue(k', v');
  }

  lemma TrimPaddedSides(s: string, left: string, right: string)
    requires s != [] && !IsWhitespace(s[0]) && !IsWhitespace(s[|s| - 1])
    requires forall k :: 0 <= k < |left| ==> IsWhitespace(left[k])
    requires forall k :: 0 <= k < |right| ==> IsWhitespace(right[k])
    ensures Trim(left + s + right, IsWhitespace) == s
  {
    PaddedStart(s, left, right);
    TrimEndPadded(s, right);
  }

  lemma PaddedStart(s: string, left: string, right: string)
    requires s != [] && !IsWhitespace(s[0])
    requires forall k :: 0 <= k < |left| ==> IsWhitespace(left[k])
    ensures TrimStart(left + s + right, IsWhitespace) == s + right
  {
    TrimStartPadded(left, s + right);
    assert left + s + right == left + (s + right);
  }

  lemma {:induction false} TrimStartPadded(left: string, rest: string)
    requires forall k :: 0 <= k < |left| ==> IsWhitespace(left[k])
    requires rest != [] && !IsWhitespace(rest[0])
    ensures TrimStart(left + rest, IsWhitespace) == rest
  {
    if left != [] {
      assert (left + rest)[1..] == left[1..] + rest;
      TrimStartPadded(left[1..], rest);
    } else {
      assert left + rest == rest;
    }
  }

  lemma {:induction false} TrimEndPadded(s: string, right: string)
    requires forall k :: 0 <= k < |right| ==> IsWhitespace(right[k])
    requires s != [] && !IsWhitespace(s[|s| - 1])
    ensures TrimEnd(s + right, IsWhitespace) == s
  {
    if right != [] {
      var t := s + right;
      assert t[..|t| - 1] == s + right[..|right| - 1];
      TrimEndPadded(s, right[..|right| - 1]);
    } else {
      assert s + right == s;
    }
  }
}
