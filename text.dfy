/**
 * The parts of Go's `strings` and `fmt` packages that the library relies on,
 * on strings modelled as sequences of characters (runes).
 */
module Text {

  predicate IsUpper(c: char) { 'A' <= c <= 'Z' }

  predicate IsLower(c: char) { 'a' <= c <= 'z' }

  /** `unicode.ToLower` restricted to ASCII letters. */
  function Lower(c: char): (r: char)
    ensures !IsUpper(r)
    ensures IsUpper(c) ==> IsLower(r) && r as int == c as int + 32
    ensures !IsUpper(c) ==> r == c
  {
    if IsUpper(c) then (c as int + 32) as char else c
  }

  /** `unicode.ToUpper` restricted to ASCII letters. */
  function Upper(c: char): (r: char)
    ensures !IsLower(r)
    ensures IsLower(c) ==> IsUpper(r) && r as int == c as int - 32
    ensures !IsLower(c) ==> r == c
  {
    if IsLower(c) then (c as int - 32) as char else c
  }

  /** `strings.ToUpper` restricted to ASCII letters. */
  function ToUpper(s: string): (r: string)
    ensures |r| == |s|
    ensures forall i :: 0 <= i < |s| ==> r[i] == Upper(s[i])
  {
    if s == [] then [] else [Upper(s[0])] + ToUpper(s[1..])
  }

  /** The white-space characters of `unicode.IsSpace`, which `strings.TrimSpace` removes. */
  const Spaces: set<char> := {
    ' ', '\t', '\n', '\r', '\U{B}', '\U{C}', '\U{85}', '\U{A0}', '\U{1680}',
    '\U{2000}', '\U{2001}', '\U{2002}', '\U{2003}', '\U{2004}', '\U{2005}', '\U{2006}',
    '\U{2007}', '\U{2008}', '\U{2009}', '\U{200A}',
    '\U{2028}', '\U{2029}', '\U{202F}', '\U{205F}', '\U{3000}'
  }

  predicate IsSpace(c: char)
  {
    c in Spaces
  }

  function TrimLeft(s: string): (r: string)
    ensures |r| <= |s| && r == s[|s| - |r|..]
    ensures r != [] ==> !IsSpace(r[0])
  {
    if s != [] && IsSpace(s[0]) then TrimLeft(s[1..]) else s
  }

  function TrimRight(s: string): (r: string)
    ensures |r| <= |s| && r == s[..|r|]
    ensures r != [] ==> !IsSpace(r[|r| - 1])
  {
    if s != [] && IsSpace(s[|s| - 1]) then TrimRight(s[..|s| - 1]) else s
  }

  /** `strings.TrimSpace`: the longest infix with no white space at either end. */
  function TrimSpace(s: string): (r: string)
    ensures |r| <= |s|
    ensures r != [] ==> !IsSpace(r[0]) && !IsSpace(r[|r| - 1])
    ensures s != [] && !IsSpace(s[0]) && !IsSpace(s[|s| - 1]) ==> r == s
  {
    TrimRight(TrimLeft(s))
  }

  /** Trimming keeps only characters of the input. */
  lemma TrimSpaceKeeps(s: string, c: char)
    requires c !in s
    ensures c !in TrimSpace(s)
  {
    var l := TrimLeft(s);
    var r := TrimRight(l);
    assert c !in l by {
      forall i | 0 <= i < |l| ensures l[i] != c {
        assert l[i] == s[|s| - |l| + i];
      }
    }
    forall i | 0 <= i < |r| ensures r[i] != c {
      assert r[i] == l[i];
    }
  }

  /** Number of occurrences of `c` in `s`. */
  function Count(s: string, c: char): nat
  {
    if s == [] then 0 else (if s[0] == c then 1 else 0) + Count(s[1..], c)
  }

  /** `strings.Split(s, string(sep))`: the empty string splits into one empty part. */
  function Split(s: string, sep: char): (parts: seq<string>)
    ensures |parts| >= 1
  {
    if s == [] then [[]]
    else
      var rest := Split(s[1..], sep);
      if s[0] == sep then [[]] + rest else [[s[0]] + rest[0]] + rest[1..]
  }

  /** `strings.Join`. */
  function Join(parts: seq<string>, sep: string): string
  {
    if |parts| == 0 then ""
    else if |parts| == 1 then parts[0]
    else parts[0] + sep + Join(parts[1..], sep)
  }

  /** Splitting on `sep` yields one part more than there are separators. */
  lemma {:induction false} SplitCount(s: string, sep: char)
    ensures |Split(s, sep)| == Count(s, sep) + 1
  {
    if s != [] {
      SplitCount(s[1..], sep);
    }
  }

  /** No part of a split contains the separator. */
  lemma {:induction false} SplitPartsFree(s: string, sep: char)
    ensures forall p :: p in Split(s, sep) ==> sep !in p
  {
    if s != [] {
      SplitPartsFree(s[1..], sep);
      var rest := Split(s[1..], sep);
      if s[0] != sep {
        assert sep !in rest[0];
        forall p | p in Split(s, sep) ensures sep !in p {
          if p != [s[0]] + rest[0] {
            assert p in rest[1..];
          }
        }
      }
    }
  }

  /** Joining the parts of a split with the separator gives the string back. */
  lemma {:induction false} SplitJoin(s: string, sep: char)
    ensures Join(Split(s, sep), [sep]) == s
  {
    if s != [] {
      SplitJoin(s[1..], sep);
      var rest := Split(s[1..], sep);
      if s[0] == sep {
        assert Split(s, sep) == [[]] + rest;
        assert Join(Split(s, sep), [sep]) == [] + [sep] + Join(rest, [sep]);
      } else {
        var parts := Split(s, sep);
        assert parts[1..] == rest[1..];
        if |rest| == 1 {
          assert Join(rest, [sep]) == rest[0];
        } else {
          assert Join(rest, [sep]) == rest[0] + [sep] + Join(rest[1..], [sep]);
        }
      }
    }
  }

  function DigitChar(d: nat): (c: char)
    requires d < 10
    ensures '0' <= c <= '9' && c as int - '0' as int == d
  {
    (d + '0' as int) as char
  }

  /** `fmt.Sprintf("%d", n)` for a natural number. */
  function NatToString(n: nat): (s: string)
    ensures |s| >= 1
    ensures n >= 10 ==> |s| >= 2
  {
    if n < 10 then [DigitChar(n)] else NatToString(n / 10) + [DigitChar(n % 10)]
  }

  /** Distinct numbers print differently. */
  lemma {:induction false} NatToStringInjective(a: nat, b: nat)
    requires NatToString(a) == NatToString(b)
    ensures a == b
  {
    var s := NatToString(a);
    if a < 10 && b < 10 {
      assert DigitChar(a) == s[0] == DigitChar(b);
    } else if a >= 10 && b >= 10 {
      assert s[|s| - 1] == DigitChar(a % 10) == DigitChar(b % 10);
      assert NatToString(a / 10) == s[..|s| - 1] == NatToString(b / 10);
      NatToStringInjective(a / 10, b / 10);
    } else {
      assert false;
    }
  }

  /** The text after the last `sep`, as `ss := strings.Split(s, sep); ss[len(ss)-1]`. */
  function LastPart(s: string, sep: char): (r: string)
  {
    var parts := Split(s, sep);
    parts[|parts| - 1]
  }

  /** The last part holds no separator and is a suffix of the whole string. */
  lemma LastPartIsSuffix(s: string, sep: char)
    ensures sep !in LastPart(s, sep)
    ensures |LastPart(s, sep)| <= |s| && LastPart(s, sep) == s[|s| - |LastPart(s, sep)|..]
    ensures sep !in s ==> LastPart(s, sep) == s
  {
    SplitPartsFree(s, sep);
    SuffixOfSplit(s, sep);
    SplitCount(s, sep);
    if sep !in s {
      NoSepCount(s, sep);
    }
  }

  lemma {:induction false} SuffixOfSplit(s: string, sep: char)
    ensures var parts := Split(s, sep);
            |parts[|parts| - 1]| <= |s| && parts[|parts| - 1] == s[|s| - |parts[|parts| - 1]|..]
            && (|parts| == 1 ==> parts[0] == s)
  {
    if s != [] {
      SuffixOfSplit(s[1..], sep);
      var rest := Split(s[1..], sep);
      if s[0] != sep && |rest| == 1 {
        assert Split(s, sep) == [[s[0]] + rest[0]];
      }
    }
  }

  /** When there are several parts, the last one is preceded by a separator. */
  lemma {:induction false} SplitLastPreceded(s: string, sep: char)
    ensures var parts := Split(s, sep);
            var l := parts[|parts| - 1];
            |parts| > 1 ==> |l| < |s| && s[|s| - |l| - 1] == sep
  {
    if s != [] {
      var parts := Split(s, sep);
      var rest := Split(s[1..], sep);
      var l := rest[|rest| - 1];
      SuffixOfSplit(s[1..], sep);
      SplitLastPreceded(s[1..], sep);
      assert parts[|parts| - 1] == l || |parts| == 1;
      if |parts| > 1 {
        assert parts[|parts| - 1] == l;
        if |rest| == 1 {
          assert s[0] == sep;
          assert l == s[1..];
        } else {
          assert s[1..][|s| - 1 - |l| - 1] == s[|s| - |l| - 1];
        }
      }
    }
  }

  /**
   * The last part is the longest separator-free suffix: it is the whole string or
   * is preceded by a separator.
   */
  lemma LastPartMaximal(s: string, sep: char)
    ensures |LastPart(s, sep)| <= |s|
    ensures |LastPart(s, sep)| == |s| || s[|s| - |LastPart(s, sep)| - 1] == sep
  {
    SuffixOfSplit(s, sep);
    SplitLastPreceded(s, sep);
  }

  /** A string without the separator splits into itself alone. */
  lemma {:induction false} SplitNoSep(s: string, sep: char)
    requires sep !in s
    ensures Split(s, sep) == [s]
  {
    if s != [] {
      assert sep !in s[1..] by {
        forall i | 0 <= i < |s[1..]| ensures s[1..][i] != sep { assert s[1..][i] == s[i + 1]; }
      }
      SplitNoSep(s[1..], sep);
      assert [s[0]] + s[1..] == s;
    }
  }

  /** A separator-free part followed by the separator splits off as the first part. */
  lemma {:induction false} SplitCons(p: string, t: string, sep: char)
    requires sep !in p
    ensures Split(p + [sep] + t, sep) == [p] + Split(t, sep)
  {
    if p == [] {
      assert p + [sep] + t == [sep] + t;
      assert ([sep] + t)[1..] == t;
    } else {
      assert sep !in p[1..] by {
        forall i | 0 <= i < |p[1..]| ensures p[1..][i] != sep { assert p[1..][i] == p[i + 1]; }
      }
      SplitCons(p[1..], t, sep);
      assert (p + [sep] + t)[1..] == p[1..] + [sep] + t;
      assert [p[0]] + p[1..] == p;
    }
  }

  /** Five separator-free parts joined by the separator split back into those five parts. */
  lemma SplitFive(p0: string, p1: string, p2: string, p3: string, p4: string, sep: char)
    requires sep !in p0 && sep !in p1 && sep !in p2 && sep !in p3 && sep !in p4
    ensures Split(p0 + [sep] + (p1 + [sep] + (p2 + [sep] + (p3 + [sep] + p4))), sep) == [p0, p1, p2, p3, p4]
  {
    var t3 := p3 + [sep] + p4;
    var t2 := p2 + [sep] + t3;
    var t1 := p1 + [sep] + t2;
    SplitNoSep(p4, sep);
    SplitCons(p3, p4, sep);
    assert Split(t3, sep) == [p3, p4];
    SplitCons(p2, t3, sep);
    assert Split(t2, sep) == [p2, p3, p4];
    SplitCons(p1, t2, sep);
    assert Split(t1, sep) == [p1, p2, p3, p4];
    SplitCons(p0, t1, sep);
  }

  lemma {:induction false} NoSepCount(s: string, sep: char)
    requires sep !in s
    ensures Count(s, sep) == 0
  {
    if s != [] {
      assert sep !in s[1..] by {
        forall i | 0 <= i < |s[1..]| ensures s[1..][i] != sep { assert s[1..][i] == s[i + 1]; }
      }
      NoSepCount(s[1..], sep);
    }
  }

  /** Occurrences add up over a concatenation. */
  lemma {:induction false} CountAppend(a: string, b: string, c: char)
    ensures Count(a + b, c) == Count(a, c) + Count(b, c)
  {
    if a != [] {
      assert (a + b)[1..] == a[1..] + b;
      CountAppend(a[1..], b, c);
    } else {
      assert a + b == b;
    }
  }

  /** Where `w` occurs in `s`, starting at `i`. */
  predicate OccursAt(w: string, s: string, i: nat)
  {
    i + |w| <= |s| && s[i..i + |w|] == w
  }

  lemma OccursInMiddle(a: string, w: string, b: string)
    ensures OccursAt(w, a + w + b, |a|)
  {
    assert (a + w + b)[|a|..|a| + |w|] == w;
  }

  lemma OccursExtended(w: string, s: string, i: nat, t: string)
    requires OccursAt(w, s, i)
    ensures OccursAt(w, s + t, i)
  {
    assert (s + t)[i..i + |w|] == s[i..i + |w|];
  }
}
