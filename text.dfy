/** The two string operations the pages rely on: JavaScript's
    `Array.prototype.join` on a list of strings and `String.prototype.trim`. */
module Text {

  /** `parts.join(sep)`: the parts with `sep` between neighbours. */
  function Join(parts: seq<string>, sep: string): (r: string)
    ensures |parts| == 0 ==> r == ""
    ensures |parts| == 1 ==> r == parts[0]
    ensures |parts| >= 1 ==> |parts[0]| <= |r| && r[..|parts[0]|] == parts[0]
    ensures |parts| >= 2 ==>
              |parts[0]| + |sep| <= |r| && r[|parts[0]|..|parts[0]| + |sep|] == sep
  {
    if |parts| == 0 then ""
    else if |parts| == 1 then parts[0]
    else parts[0] + sep + Join(parts[1..], sep)
  }

  /** Joining one-character parts with a one-character separator puts part `i`
      at position `2 i` and the separator at every odd position. */
  lemma {:induction false} JoinSingles(parts: seq<string>, sep: char)
    requires forall i :: 0 <= i < |parts| ==> |parts[i]| == 1
    ensures |parts| > 0 ==> |Join(parts, [sep])| == 2 * |parts| - 1
    ensures |parts| == 0 ==> Join(parts, [sep]) == ""
    ensures forall i :: 0 <= i < |parts| ==> Join(parts, [sep])[2 * i] == parts[i][0]
    ensures forall j :: 0 <= j < |Join(parts, [sep])| && j % 2 == 1 ==> Join(parts, [sep])[j] == sep
  {
    if |parts| > 1 {
      var rest := Join(parts[1..], [sep]);
      JoinSingles(parts[1..], sep);
      var r := Join(parts, [sep]);
      assert r == parts[0] + [sep] + rest;
      forall i | 0 < i < |parts| ensures r[2 * i] == parts[i][0] {
        assert r[2 * i] == rest[2 * (i - 1)];
        assert parts[1..][i - 1] == parts[i];
      }
      forall j | 0 <= j < |r| && j % 2 == 1 ensures r[j] == sep {
        if j > 1 {
          assert r[j] == rest[j - 2];
        }
      }
    }
  }

  /** A character occurs in such a join exactly when it is one of the parts,
      or it is the separator and there are at least two parts. */
  lemma JoinSinglesMembers(parts: seq<string>, sep: char, c: char)
    requires forall i :: 0 <= i < |parts| ==> |parts[i]| == 1
    ensures c in Join(parts, [sep]) <==>
      (exists i :: 0 <= i < |parts| && parts[i][0] == c) || (|parts| > 1 && c == sep)
  {
  }

  /** The characters `String.prototype.trim` removes: the ECMAScript
      WhiteSpace and LineTerminator code points. */
  predicate IsWhitespace(c: char)
    ensures IsWhitespace(c) && ' ' <= c <= '~' ==> c == ' '
    ensures IsWhitespace(c) && c < ' ' ==> '\t' <= c <= '\r'
  {
    || c == ' ' || c == '\t' || c == '\n' || c == '\r'
    || c == '\U{000B}' || c == '\U{000C}' || c == '\U{00A0}' || c == '\U{FEFF}'
    || c == '\U{1680}' || ('\U{2000}' <= c <= '\U{200A}')
    || c == '\U{2028}' || c == '\U{2029}' || c == '\U{202F}' || c == '\U{205F}'
    || c == '\U{3000}'
  }

  /** Every character of `s` is whitespace. */
  predicate AllWhitespace(s: string)
  {
    forall i :: 0 <= i < |s| ==> IsWhitespace(s[i])
  }

  /** `s` with its leading whitespace removed: a suffix of `s` that does not
      start with whitespace, and everything cut off is whitespace. */
  function TrimStart(s: string): (r: string)
    ensures |r| <= |s| && r == s[|s| - |r|..]
    ensures r == [] || !IsWhitespace(r[0])
    ensures AllWhitespace(s[..|s| - |r|])
  {
    if s == [] || !IsWhitespace(s[0]) then s
    else
      var r := TrimStart(s[1..]);
      assert s[..|s| - |r|] == [s[0]] + s[1..][..|s| - 1 - |r|];
      r
  }

  /** `s` with its trailing whitespace removed: a prefix of `s` that does not
      end with whitespace, and everything cut off is whitespace. */
  function TrimEnd(s: string): (r: string)
    ensures |r| <= |s| && r == s[..|r|]
    ensures r == [] || !IsWhitespace(r[|r| - 1])
    ensures AllWhitespace(s[|r|..])
  {
    if s == [] || !IsWhitespace(s[|s| - 1]) then s
    else
      var r := TrimEnd(s[..|s| - 1]);
      assert s[|r|..] == s[..|s| - 1][|r|..] + [s[|s| - 1]];
      r
  }

  /** The number of leading whitespace characters of `s`. */
  function Leading(s: string): (k: nat)
    ensures k <= |s| && TrimStart(s) == s[k..]
  {
    |s| - |TrimStart(s)|
  }

  /** `s.trim()`: the piece of `s` that starts after its leading whitespace,
      neither starts nor ends with whitespace, and is followed only by
      whitespace. */
  function Trim(s: string): (r: string)
    ensures Leading(s) + |r| <= |s|
    ensures r == s[Leading(s)..Leading(s) + |r|]
    ensures r == [] || (!IsWhitespace(r[0]) && !IsWhitespace(r[|r| - 1]))
    ensures AllWhitespace(s[Leading(s) + |r|..])
  {
    var k := Leading(s);
    var r := TrimEnd(s[k..]);
    assert s[k..][|r|..] == s[k + |r|..];
    r
  }

  /** `s.trim()` is empty exactly when every character of `s` is whitespace,
      which is when `!s.trim()` holds in JavaScript. */
  lemma TrimEmptyIff(s: string)
    ensures Trim(s) == "" <==> AllWhitespace(s)
  {
  }

  /** Trimming is idempotent. */
  lemma TrimIdempotent(s: string)
    ensures Trim(Trim(s)) == Trim(s)
  {
  }
}
