/**
 * Naming strategies: how a Go field or type name becomes a column or table
 * name (`Default` keeps it, `Underline` gives snake_case, `CamelCase` lowers
 * the first letter). Every strategy first rewrites each "ID" to "Id".
 */
module Naming {
  import opened Text

  /** A Go `int` (64 bits), the underlying type of `Strategy`. */
  type Strategy = i: int | -0x8000_0000_0000_0000 <= i < 0x8000_0000_0000_0000

  const Default: Strategy := 0
  const Underline: Strategy := 1
  const CamelCase: Strategy := 2

  /** `strings.Replace(s, "ID", "Id", -1)`: left to right, non-overlapping. */
  function ReplaceID(s: string): (r: string)
    ensures |r| == |s|
    ensures s != [] ==> r[0] == s[0]
    ensures forall i :: 0 <= i < |s| ==> r[i] == s[i] || (s[i] == 'D' && r[i] == 'd')
  {
    if |s| < 2 then s
    else if s[0] == 'I' && s[1] == 'D' then "Id" + ReplaceID(s[2..])
    else [s[0]] + ReplaceID(s[1..])
  }

  /**
   * Exactly the 'D's right after an 'I' change (to 'd'); since an 'I' is never a 'D',
   * the matches cannot overlap, so "IDD" becomes "IdD".
   */
  lemma {:induction false} ReplaceIDChanges(s: string)
    ensures forall i :: 0 <= i < |s| ==> (ReplaceID(s)[i] != s[i] <==> i > 0 && s[i - 1] == 'I' && s[i] == 'D')
  {
    if |s| >= 2 {
      var r := ReplaceID(s);
      if s[0] == 'I' && s[1] == 'D' {
        var u := s[2..];
        var t := ReplaceID(u);
        ReplaceIDChanges(u);
        forall i | 0 <= i < |s| ensures r[i] != s[i] <==> i > 0 && s[i - 1] == 'I' && s[i] == 'D' {
          if i >= 2 {
            assert r[i] == t[i - 2] && s[i] == u[i - 2];
            if i >= 3 {
              assert s[i - 1] == u[i - 3];
            }
          }
        }
      } else {
        var u := s[1..];
        var t := ReplaceID(u);
        ReplaceIDChanges(u);
        forall i | 0 <= i < |s| ensures r[i] != s[i] <==> i > 0 && s[i - 1] == 'I' && s[i] == 'D' {
          if i >= 1 {
            assert r[i] == t[i - 1] && s[i] == u[i - 1];
            if i >= 2 {
              assert s[i - 1] == u[i - 2];
            }
          }
        }
      }
    } else {
      assert ReplaceID(s) == s;
    }
  }

  /** `s` holds the two letters "ID" side by side somewhere. */
  predicate HasID(s: string)
  {
    exists i :: 0 <= i < |s| - 1 && s[i] == 'I' && s[i + 1] == 'D'
  }

  /** After the rewrite no "ID" is left. */
  lemma {:induction false} ReplaceIDLeavesNone(s: string)
    ensures !HasID(ReplaceID(s))
  {
    if |s| >= 2 {
      var r := ReplaceID(s);
      if s[0] == 'I' && s[1] == 'D' {
        ReplaceIDLeavesNone(s[2..]);
        var t := ReplaceID(s[2..]);
        forall i | 0 <= i < |r| - 1 ensures !(r[i] == 'I' && r[i + 1] == 'D') {
          if i >= 2 {
            assert r[i] == t[i - 2] && r[i + 1] == t[i - 1];
          }
        }
      } else {
        ReplaceIDLeavesNone(s[1..]);
        var t := ReplaceID(s[1..]);
        forall i | 0 <= i < |r| - 1 ensures !(r[i] == 'I' && r[i + 1] == 'D') {
          if i >= 1 {
            assert r[i] == t[i - 1] && r[i + 1] == t[i];
          } else {
            assert r[1] == t[0] == s[1];
          }
        }
      }
    }
  }

  /** A name without "ID" is left as it is. */
  lemma {:induction false} ReplaceIDKeepsClean(s: string)
    requires !HasID(s)
    ensures ReplaceID(s) == s
  {
    if |s| >= 2 {
      assert !(s[0] == 'I' && s[1] == 'D');
      assert !HasID(s[1..]) by {
        forall i | 0 <= i < |s[1..]| - 1 ensures !(s[1..][i] == 'I' && s[1..][i + 1] == 'D') {
          assert s[1..][i] == s[i + 1] && s[1..][i + 1] == s[i + 2];
        }
      }
      ReplaceIDKeepsClean(s[1..]);
    }
  }

  /** The rewrite is idempotent. */
  lemma ReplaceIDIdempotent(s: string)
    ensures ReplaceID(ReplaceID(s)) == ReplaceID(s)
  {
    ReplaceIDLeavesNone(s);
    ReplaceIDKeepsClean(ReplaceID(s));
  }

  /** What the underline loop appends for a rune after the first. */
  function Piece(c: char): (p: string)
    ensures |p| == (if IsUpper(c) then 2 else 1)
    ensures forall k :: 0 <= k < |p| ==> !IsUpper(p[k])
    ensures IsUpper(c) ==> p[0] == '_'
  {
    if IsUpper(c) then ['_', Lower(c)] else [c]
  }

  /** The snake_case name the underline loop has built after the runes of `s`. */
  function Snake(s: string): string
  {
    if s == [] then []
    else if |s| == 1 then [Lower(s[0])]
    else Snake(s[..|s| - 1]) + Piece(s[|s| - 1])
  }

  /** The camel-case name: the first rune lower-cased, the rest unchanged. */
  function Camel(s: string): string
    requires s != []
  {
    if |s| == 1 then [Lower(s[0])] else [Lower(s[0])] + s[1..]
  }

  /** `getStrategyName`; Go indexes `str[0]` for CamelCase, which panics on "". */
  function StrategyName(s: string, sty: Strategy): string
    requires sty == CamelCase ==> s != []
  {
    var str := ReplaceID(s);
    if sty == Default then str
    else if sty == Underline then Snake(str)
    else if sty == CamelCase then Camel(str)
    else str
  }

  /** `getStrategyName` as the Go code runs it: a loop over the runes for Underline. */
  method GetStrategyName(s: string, sty: Strategy) returns (name: string)
    requires sty == CamelCase ==> s != []
    ensures name == StrategyName(s, sty)
  {
    var str := ReplaceID(s);
    if sty == Default {
      return str;
    } else if sty == Underline {
      name := "";
      var i := 0;
      while i < |str|
        invariant 0 <= i <= |str|
        invariant name == Snake(str[..i])
      {
        var v := str[i];
        if i == 0 {
          name := name + [Lower(v)];
        } else if 'A' <= v <= 'Z' {
          name := name + "_" + [Lower(v)];
        } else {
          name := name + [v];
        }
        assert str[..i + 1][..i] == str[..i];
        i := i + 1;
      }
      assert str[..i] == str;
      return name;
    } else if sty == CamelCase {
      if |str| == 1 {
        name := [Lower(str[0])];
      } else {
        name := [Lower(str[0])] + str[1..];
      }
      return name;
    }
    return str;
  }

  /** Number of upper-case ASCII letters in `s`. */
  function UpperCount(s: string): nat
  {
    if s == [] then 0 else UpperCount(s[..|s| - 1]) + (if IsUpper(s[|s| - 1]) then 1 else 0)
  }

  /** Each upper-case letter after the first rune gains one underscore. */
  lemma {:induction false} SnakeLength(s: string)
    requires s != []
    ensures |Snake(s)| == |s| + UpperCount(s[1..])
  {
    if |s| > 1 {
      var p := s[..|s| - 1];
      SnakeLength(p);
      assert s[1..][..|s[1..]| - 1] == p[1..];
    } else {
      assert s[1..] == [];
    }
  }

  /** A snake_case name holds no upper-case ASCII letter. */
  lemma {:induction false} SnakeHasNoUpper(s: string)
    ensures forall k :: 0 <= k < |Snake(s)| ==> !IsUpper(Snake(s)[k])
  {
    if |s| > 1 {
      SnakeHasNoUpper(s[..|s| - 1]);
      var a := Snake(s[..|s| - 1]);
      var b := Piece(s[|s| - 1]);
      forall k | 0 <= k < |a + b| ensures !IsUpper((a + b)[k]) {
        if k >= |a| { assert (a + b)[k] == b[k - |a|]; }
      }
    }
  }

  /** A name with no upper-case letter and a lower-case or non-letter first rune is its own snake_case. */
  lemma {:induction false} SnakeKeepsLower(s: string)
    requires forall k :: 0 <= k < |s| ==> !IsUpper(s[k])
    ensures Snake(s) == s
  {
    if |s| > 1 {
      SnakeKeepsLower(s[..|s| - 1]);
      assert s == s[..|s| - 1] + [s[|s| - 1]];
    }
  }

  /** Underlining an underlined name changes nothing. */
  lemma SnakeIdempotent(s: string)
    ensures Snake(Snake(s)) == Snake(s)
  {
    SnakeHasNoUpper(s);
    SnakeKeepsLower(Snake(s));
  }

  /** Camel case changes only the first rune, and only to lower case. */
  lemma CamelOnlyFirst(s: string)
    requires s != []
    ensures |Camel(s)| == |s| && Camel(s)[0] == Lower(s[0])
    ensures Camel(s)[1..] == s[1..]
    ensures Camel(Camel(s)) == Camel(s)
  {
  }

  /** The underline cases of the unit tests. */
  lemma UnderlineExamples()
    ensures StrategyName("ABC", Underline) == "a_b_c"
    ensures StrategyName("ABC_", Underline) == "a_b_c_"
  {
    assert ReplaceID("ABC") == "ABC";
    assert "ABC_"[..3] == "ABC" && "ABC"[..2] == "AB";
    assert Snake("AB") == "a_b";
    assert ReplaceID("ABC_") == "ABC_";
  }

  /** The camel-case and unknown-strategy cases of the unit tests. */
  lemma CamelExamples()
    ensures StrategyName("ABC", CamelCase) == "aBC"
    ensures StrategyName("A", CamelCase) == "a"
    ensures StrategyName("A", -1) == "A"
  {
    assert ReplaceID("ABC") == "ABC";
  }

  /** A field called "UserID" gets the column "user_id". */
  lemma IdFieldExample()
    ensures StrategyName("UserID", Underline) == "user_id"
  {
    assert ReplaceID("UserID") == "UserId";
    assert "UserId"[..5] == "UserI" && "UserI"[..4] == "User" && "User"[..3] == "Use";
    assert "Use"[..2] == "Us";
    assert Snake("Us") == "us";
    assert Snake("Use") == "use";
    assert Snake("User") == "user";
    assert Snake("UserI") == "user_i";
  }
}
