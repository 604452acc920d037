/** The few Python built-ins the services rely on: `str.rstrip(c)`,
    `str.strip()`, `str.replace(a, b)` for single characters, the
    `x or default` idiom on an optional string and `os.environ.get`. */
module PyStr {
  import opened Wrappers

  /** Python's `str.isspace` for one character: the ASCII whitespace and
      separator controls plus the Unicode space separators. */
  predicate IsSpace(c: char) {
    var n := c as int;
    (9 <= n <= 13) || (28 <= n <= 32) || n == 0x85 || n == 0xa0 || n == 0x1680 ||
    (0x2000 <= n <= 0x200a) || n == 0x2028 || n == 0x2029 || n == 0x202f ||
    n == 0x205f || n == 0x3000
  }

  /** `s.rstrip(c)`: the longest prefix of `s` that does not end in `c`. */
  function RStrip(s: string, c: char): (r: string)
    ensures r <= s
    ensures forall k :: |r| <= k < |s| ==> s[k] == c
    ensures r == [] || r[|r| - 1] != c
    decreases |s|
  {
    if s != [] && s[|s| - 1] == c then RStrip(s[..|s| - 1], c) else s
  }

  /** `s.rstrip()`: drops trailing whitespace. */
  function TrimEnd(s: string): (r: string)
    ensures r <= s
    ensures forall k :: |r| <= k < |s| ==> IsSpace(s[k])
    ensures r == [] || !IsSpace(r[|r| - 1])
    decreases |s|
  {
    if s != [] && IsSpace(s[|s| - 1]) then TrimEnd(s[..|s| - 1]) else s
  }

  /** `s.lstrip()`: drops leading whitespace. */
  function TrimStart(s: string): (r: string)
    ensures |r| <= |s| && r == s[|s| - |r|..]
    ensures forall k :: 0 <= k < |s| - |r| ==> IsSpace(s[k])
    ensures r == [] || !IsSpace(r[0])
    decreases |s|
  {
    if s != [] && IsSpace(s[0]) then TrimStart(s[1..]) else s
  }

  /** `s.strip()`: `s` without its leading and trailing whitespace. */
  function Strip(s: string): (r: string)
    ensures |r| <= |s|
  {
    TrimStart(TrimEnd(s))
  }

  /** What `strip` returns: the slice of `s` after the leading whitespace
      with only whitespace after it; it starts and ends with a non-space
      character, and it is empty exactly when `s` is blank. */
  lemma StripSpec(s: string)
    ensures var r := Strip(s); var i := |TrimEnd(s)| - |r|;
      0 <= i <= |s| - |r| && r == s[i..i + |r|] &&
      (forall k :: 0 <= k < i ==> IsSpace(s[k])) &&
      (forall k :: i + |r| <= k < |s| ==> IsSpace(s[k]))
    ensures Strip(s) != [] ==> !IsSpace(Strip(s)[0]) && !IsSpace(Strip(s)[|Strip(s)| - 1])
    ensures Strip(s) == [] <==> forall k :: 0 <= k < |s| ==> IsSpace(s[k])
  {
    TrimSlice(s, TrimEnd(s), Strip(s));
  }

  /** The slicing argument behind `Strip`: trimming the end and then the
      start leaves the middle slice, with whitespace on both sides of it. */
  lemma TrimSlice(s: string, e: string, r: string)
    requires e <= s && (forall k :: |e| <= k < |s| ==> IsSpace(s[k]))
    requires e == [] || !IsSpace(e[|e| - 1])
    requires |r| <= |e| && r == e[|e| - |r|..]
    requires forall k :: 0 <= k < |e| - |r| ==> IsSpace(e[k])
    requires r == [] || !IsSpace(r[0])
    ensures var i := |e| - |r|;
      0 <= i <= |s| - |r| && r == s[i..i + |r|] &&
      (forall k :: 0 <= k < i ==> IsSpace(s[k])) &&
      (forall k :: i + |r| <= k < |s| ==> IsSpace(s[k]))
    ensures r != [] ==> !IsSpace(r[0]) && !IsSpace(r[|r| - 1])
    ensures r == [] <==> forall k :: 0 <= k < |s| ==> IsSpace(s[k])
  {
    forall k | 0 <= k < |e| - |r| ensures IsSpace(s[k]) { assert s[k] == e[k]; }
    if r != [] {
      assert r[|r| - 1] == e[|e| - 1];
      assert r[0] == s[|e| - |r|];
    } else {
      assert e == [];
    }
  }

  /** `s.replace(a, b)` for one-character `a` and `b`: every `a` becomes `b`
      and every other character stays where it was. */
  function ReplaceChar(s: string, a: char, b: char): (r: string)
    ensures |r| == |s|
    ensures forall k :: 0 <= k < |s| ==> r[k] == (if s[k] == a then b else s[k])
    ensures a != b ==> a !in r
    decreases |s|
  {
    if s == [] then []
    else [if s[0] == a then b else s[0]] + ReplaceChar(s[1..], a, b)
  }

  /** Python's `x or default` where `x` is an optional string: `None` and the
      empty string are both falsy. */
  function OrElse(x: Option<string>, default: string): (r: string)
    ensures x.Some? && x.value != "" ==> r == x.value
    ensures x.None? || x.value == "" ==> r == default
  {
    if x.Some? && x.value != "" then x.value else default
  }

  /** A string of `n` copies of `c`. */
  function Repeat(c: char, n: nat): (r: string)
    ensures |r| == n && forall k :: 0 <= k < n ==> r[k] == c
  {
    if n == 0 then [] else [c] + Repeat(c, n - 1)
  }

  /** `rstrip` only removes copies of `c`: the input is the result followed by
      a run of `c`, and stripping twice changes nothing. */
  lemma {:induction false} RStripSplits(s: string, c: char)
    ensures s == RStrip(s, c) + Repeat(c, |s| - |RStrip(s, c)|)
    ensures RStrip(RStrip(s, c), c) == RStrip(s, c)
  {
    var r := RStrip(s, c);
    var tail := Repeat(c, |s| - |r|);
    assert |r + tail| == |s|;
    forall k | 0 <= k < |s| ensures (r + tail)[k] == s[k] {
      if k >= |r| { assert (r + tail)[k] == tail[k - |r|]; }
    }
  }

  /** `os.environ.get(key, default)`, with the environment passed in. */
  function EnvGet(env: map<string, string>, key: string, default: string): (r: string)
    ensures key in env ==> r == env[key]
    ensures key !in env ==> r == default
  {
    if key in env then env[key] else default
  }
}
