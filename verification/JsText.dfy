/** The ECMAScript string operations that the modelled code calls. */
module JsText {

  /** WhiteSpace and LineTerminator of ECMA-262, the characters that `trim` removes. */
  predicate IsWhitespace(code: int) {
    || 0x09 <= code <= 0x0D
    || code in {0x20, 0xA0, 0x1680, 0x2028, 0x2029, 0x202F, 0x205F, 0x3000, 0xFEFF}
    || 0x2000 <= code <= 0x200A
  }

  predicate AllBlank<T>(s: seq<T>, blank: T -> bool) {
    forall i | 0 <= i < |s| :: blank(s[i])
  }

  /** The number of leading blank elements. */
  function LeadingBlanks<T>(s: seq<T>, blank: T -> bool): (n: nat)
    ensures n <= |s| && AllBlank(s[..n], blank)
    ensures n < |s| ==> !blank(s[n])
  {
    if s == [] || !blank(s[0]) then 0
    else
      var n := 1 + LeadingBlanks(s[1..], blank);
      assert s[..n] == [s[0]] + s[1..][..n - 1];
      n
  }

  function TrimStart<T>(s: seq<T>, blank: T -> bool): (r: seq<T>)
    ensures |r| <= |s| && r == s[|s| - |r|..]
    ensures AllBlank(s[..|s| - |r|], blank)
    ensures r != [] ==> !blank(r[0])
  {
    s[LeadingBlanks(s, blank)..]
  }

  function TrimEnd<T>(s: seq<T>, blank: T -> bool): (r: seq<T>)
    ensures r <= s
    ensures AllBlank(s[|r|..], blank)
    ensures r != [] ==> !blank(r[|r| - 1])
  {
    if s == [] || !blank(s[|s| - 1]) then s
    else
      var r := TrimEnd(s[..|s| - 1], blank);
      assert s[|r|..] == s[..|s| - 1][|r|..] + [s[|s| - 1]];
      r
  }

  predicate BlankChar(c: char) {
    IsWhitespace(c as int)
  }

  function Trim(s: string): (r: string)
    ensures |r| <= |s|
    ensures r != [] ==> !BlankChar(r[0]) && !BlankChar(r[|r| - 1])
  {
    TrimEnd(TrimStart(s, BlankChar), BlankChar)
  }

  lemma TrimFixpoint(s: string)
    ensures Trim(s) == s <==> s == [] || (!BlankChar(s[0]) && !BlankChar(s[|s| - 1]))
  {
  }

  /** A string that begins with ink is not trimmed away, and is shortened if it ends in white space. */
  lemma TrimKeepsHead(s: string)
    requires s != [] && !BlankChar(s[0])
    ensures Trim(s) != [] && Trim(s)[0] == s[0]
    ensures BlankChar(s[|s| - 1]) ==> |Trim(s)| < |s|
  {
    assert TrimStart(s, BlankChar) == s;
    assert TrimEnd(s, BlankChar) != [] || AllBlank(s[0..], BlankChar);
    assert s[0..] == s;
  }

  /** `s.split(sep)` for a one-character separator. */
  function Split(s: string, sep: char): (parts: seq<string>)
    ensures |parts| >= 1
  {
    if s == [] then [""]
    else if s[0] == sep then [""] + Split(s[1..], sep)
    else
      var rest := Split(s[1..], sep);
      [[s[0]] + rest[0]] + rest[1..]
  }

  /** One string's parts begin another's exactly when it is the other or ends at one of its separators. */
  lemma {:induction false} SplitPrefix(a: string, b: string, sep: char)
    ensures Split(a, sep) <= Split(b, sep) <==> a == b || a + [sep] <= b
  {
    if a != [] && b != [] && a[0] == b[0] {
      var a', b' := a[1..], b[1..];
      SplitPrefix(a', b', sep);
      assert a == [a[0]] + a' && b == [a[0]] + b';
      assert (a + [sep])[1..] == a' + [sep];
      assert a + [sep] <= b <==> a' + [sep] <= b';
      var pa, pb := Split(a', sep), Split(b', sep);
      if a[0] == sep {
        assert Split(a, sep)[1..] == pa && Split(b, sep)[1..] == pb;
        assert Split(a, sep) <= Split(b, sep) <==> pa <= pb;
      } else {
        var qa, qb := Split(a, sep), Split(b, sep);
        assert qa[1..] == pa[1..] && qb[1..] == pb[1..];
        assert qa[0][1..] == pa[0] && qb[0][1..] == pb[0];
        assert qa[0] == qb[0] <==> pa[0] == pb[0];
        PrefixByHead(qa, qb);
        PrefixByHead(pa, pb);
      }
    } else if a == [] {
      assert a + [sep] == [sep] && Split(a, sep) == [""];
      if b != [] {
        PrefixByHead(Split(a, sep), Split(b, sep));
        assert [sep] <= b <==> b[0] == sep;
        if b[0] != sep {
          assert |Split(b, sep)[0]| > 0;
        }
      }
    } else {
      assert (a + [sep])[0] == a[0];
      PrefixByHead(Split(a, sep), Split(b, sep));
      if b == [] {
        assert Split(b, sep) == [""];
        assert a[0] == sep ==> |Split(a, sep)| > 1;
      } else {
        assert a[0] != sep ==> Split(a, sep)[0] != [] && Split(a, sep)[0][0] == a[0];
        assert b[0] != sep ==> Split(b, sep)[0] != [] && Split(b, sep)[0][0] == b[0];
      }
    }
  }

  /** The parts put together again with the separator between them. */
  function Join(parts: seq<string>, sep: char): string {
    if parts == [] then ""
    else if |parts| == 1 then parts[0]
    else parts[0] + [sep] + Join(parts[1..], sep)
  }

  lemma {:induction false} SplitJoins(s: string, sep: char)
    ensures Join(Split(s, sep), sep) == s
    ensures forall part | part in Split(s, sep) :: sep !in part
  {
    if s != [] {
      var rest := Split(s[1..], sep);
      SplitJoins(s[1..], sep);
      if s[0] == sep {
        assert Split(s, sep)[1..] == rest;
      } else {
        assert Split(s, sep)[1..] == rest[1..];
      }
    }
  }

  lemma {:induction false} SplitTrailing(s: string, sep: char)
    ensures Split(s + [sep], sep) == Split(s, sep) + [""]
  {
    if s != [] {
      SplitTrailing(s[1..], sep);
      assert (s + [sep])[1..] == s[1..] + [sep];
    } else {
      assert (s + [sep])[1..] == "";
    }
  }

  lemma PrefixByHead<T>(a: seq<T>, b: seq<T>)
    requires a != [] && b != []
    ensures a <= b <==> a[0] == b[0] && a[1..] <= b[1..]
  {
    if a[0] == b[0] && a[1..] <= b[1..] {
      assert a == [a[0]] + a[1..] && b == [b[0]] + b[1..];
    }
  }
}
