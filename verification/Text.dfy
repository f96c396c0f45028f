/** White space, trimming and substrings of ASCII text. */
module Text {
  predicate IsSpace(c: char) {
    c == ' ' || c == '\t' || c == '\n' || c == '\r' || c == '\U{000B}' || c == '\U{000C}'
  }

  predicate IsBlank(s: string) {
    forall i :: 0 <= i < |s| ==> IsSpace(s[i])
  }

  function TrimStart(s: string): string {
    if s != [] && IsSpace(s[0]) then TrimStart(s[1..]) else s
  }

  function TrimEnd(s: string): string {
    if s != [] && IsSpace(s[|s| - 1]) then TrimEnd(s[..|s| - 1]) else s
  }

  function Trim(s: string): string { TrimEnd(TrimStart(s)) }

  /** Trimming takes white space off both ends and stops at the first other character. */
  lemma TrimTakesSpace(s: string) returns (a: string, b: string)
    ensures s == a + Trim(s) + b && IsBlank(a) && IsBlank(b)
    ensures Trim(s) == "" || (!IsSpace(Trim(s)[0]) && !IsSpace(Trim(s)[|Trim(s)| - 1]))
  {
    a := TrimStartTakes(s);
    b := TrimEndTakes(TrimStart(s));
    assert s == a + (Trim(s) + b) == a + Trim(s) + b;
    assert Trim(s) != "" ==> Trim(s)[0] == TrimStart(s)[0];
  }

  lemma {:induction false} TrimStartTakes(s: string) returns (a: string)
    ensures s == a + TrimStart(s) && IsBlank(a) && (TrimStart(s) == "" || !IsSpace(TrimStart(s)[0]))
  {
    if s != "" && IsSpace(s[0]) {
      var rest := TrimStartTakes(s[1..]);
      a := [s[0]] + rest;
    } else {
      a := "";
    }
  }

  lemma {:induction false} TrimEndTakes(s: string) returns (b: string)
    ensures s == TrimEnd(s) + b && IsBlank(b) && (TrimEnd(s) == "" || !IsSpace(TrimEnd(s)[|TrimEnd(s)| - 1]))
  {
    if s != "" && IsSpace(s[|s| - 1]) {
      var rest := TrimEndTakes(s[..|s| - 1]);
      b := rest + [s[|s| - 1]];
      assert s == s[..|s| - 1] + [s[|s| - 1]];
    } else {
      b := "";
    }
  }

  lemma {:induction false} TrimStartOf(a: string, t: string)
    requires IsBlank(a) && (t == "" || !IsSpace(t[0]))
    ensures TrimStart(a + t) == t
  {
    if a == "" {
      assert a + t == t;
    } else {
      assert (a + t)[1..] == a[1..] + t;
      TrimStartOf(a[1..], t);
    }
  }

  lemma {:induction false} TrimEndOf(t: string, b: string)
    requires IsBlank(b) && (t == "" || !IsSpace(t[|t| - 1]))
    ensures TrimEnd(t + b) == t
  {
    if b == "" {
      assert t + b == t;
    } else {
      assert (t + b)[..|t + b| - 1] == t + b[..|b| - 1];
      TrimEndOf(t, b[..|b| - 1]);
    }
  }

  /** White space around a text that neither begins nor ends with any is what trimming removes. */
  lemma TrimFinds(a: string, t: string, b: string)
    requires IsBlank(a) && IsBlank(b) && t != "" && !IsSpace(t[0]) && !IsSpace(t[|t| - 1])
    ensures Trim(a + t + b) == t
  {
    assert a + t + b == a + (t + b);
    TrimStartOf(a, t + b);
    TrimEndOf(t, b);
  }

  /** A text is blank exactly when trimming leaves nothing. */
  lemma BlankTrims(s: string)
    ensures IsBlank(s) <==> Trim(s) == ""
  {
    var a, b := TrimTakesSpace(s);
    assert Trim(s) != "" ==> s[|a|] == Trim(s)[0];
  }

  lemma TrimNothing(s: string)
    requires s != [] && !IsSpace(s[0]) && !IsSpace(s[|s| - 1])
    ensures Trim(s) == s
  {}

  /** The pieces in order with `sep` between them. */
  function Join(pieces: seq<string>, sep: string): string {
    if pieces == [] then "" else if |pieces| == 1 then pieces[0] else pieces[0] + sep + Join(pieces[1..], sep)
  }

  predicate ArrowAt(s: string, k: int) {
    0 <= k < |s| - 1 && s[k] == '-' && s[k + 1] == '>'
  }

  /** `->` does not occur. */
  predicate NoArrow(s: string) {
    forall k :: 0 <= k < |s| - 1 ==> !ArrowAt(s, k)
  }

  /** The first arrow of `a + "->" + b` is the one in the middle when `a` has none. */
  lemma FirstArrow(a: string, b: string)
    requires NoArrow(a)
    ensures ArrowAt(a + "->" + b, |a|) && forall k :: 0 <= k < |a| ==> !ArrowAt(a + "->" + b, k)
  {
    var s := a + "->" + b;
    forall k | 0 <= k < |a| ensures !ArrowAt(s, k) {
      if k < |a| - 1 {
        assert !ArrowAt(a, k) && s[k] == a[k] && s[k + 1] == a[k + 1];
      }
    }
  }

  /** A key with an arrow-free head can be taken apart. */
  lemma ArrowSplits(a: string, b: string, c: string, d: string)
    requires NoArrow(a) && NoArrow(c) && a + "->" + b == c + "->" + d
    ensures a == c && b == d
  {
    FirstArrow(a, b);
    FirstArrow(c, d);
    assert |a| == |c|;
    assert (a + "->" + b)[..|a|] == a && (c + "->" + d)[..|a|] == c;
    assert (a + "->" + b)[|a| + 2..] == b && (c + "->" + d)[|a| + 2..] == d;
  }

  function UpperChar(c: char): char {
    if 'a' <= c <= 'z' then c - 'a' + 'A' else c
  }

  function Upper(s: string): (r: string)
    ensures |r| == |s| && forall i :: 0 <= i < |s| ==> r[i] == UpperChar(s[i])
  {
    seq(|s|, i requires 0 <= i < |s| => UpperChar(s[i]))
  }
}
