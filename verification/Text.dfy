/** String operations the program takes from its language. */
module Text {
  /** White space as `trim` sees it. */
  predicate Blank(c: char) {
    c == ' ' || '\t' <= c <= '\r' || c == '\U{A0}' || c == '\U{FEFF}' || c == '\U{1680}' || c == '\U{2028}'
    || c == '\U{2029}' || c == '\U{202F}' || c == '\U{205F}' || c == '\U{3000}' || '\U{2000}' <= c <= '\U{200A}'
  }

  function TrimStart(s: string): string {
    if s != [] && Blank(s[0]) then TrimStart(s[1..]) else s
  }

  function TrimEnd(s: string): string {
    if s != [] && Blank(s[|s| - 1]) then TrimEnd(s[..|s| - 1]) else s
  }

  function Trim(s: string): string {
    TrimEnd(TrimStart(s))
  }

  function OrElse(s: string, fallback: string): string {
    if s != "" then s else fallback
  }

  predicate AllBlank(s: string) {
    forall i :: 0 <= i < |s| ==> Blank(s[i])
  }

  /** What is left of s between blanks: it neither begins nor ends with one. */
  predicate Between(s: string, before: string, t: string, after: string) {
    && s == before + t + after && AllBlank(before) && AllBlank(after)
    && (t != "" ==> !Blank(t[0]) && !Blank(t[|t| - 1]))
  }

  lemma {:induction false} StartOf(before: string, rest: string)
    requires AllBlank(before) && (rest != "" ==> !Blank(rest[0]))
    ensures TrimStart(before + rest) == rest
  {
    if before == "" {
      assert before + rest == rest;
    } else {
      assert (before + rest)[1..] == before[1..] + rest;
      StartOf(before[1..], rest);
    }
  }

  lemma {:induction false} EndOf(rest: string, after: string)
    requires AllBlank(after) && (rest != "" ==> !Blank(rest[|rest| - 1]))
    ensures TrimEnd(rest + after) == rest
  {
    if after == "" {
      assert rest + after == rest;
    } else {
      var n := |after| - 1;
      assert (rest + after)[..|rest + after| - 1] == rest + after[..n];
      assert (rest + after)[|rest + after| - 1] == after[n];
      EndOf(rest, after[..n]);
    }
  }

  lemma {:induction false} StartSplit(s: string) returns (before: string)
    ensures s == before + TrimStart(s) && AllBlank(before)
    ensures TrimStart(s) != "" ==> !Blank(TrimStart(s)[0])
  {
    before := "";
    if s != "" && Blank(s[0]) {
      before := StartSplit(s[1..]);
      before := [s[0]] + before;
    }
  }

  lemma {:induction false} EndSplit(s: string) returns (after: string)
    ensures s == TrimEnd(s) + after && AllBlank(after)
    ensures TrimEnd(s) != "" ==> !Blank(TrimEnd(s)[|TrimEnd(s)| - 1])
  {
    after := "";
    if s != "" && Blank(s[|s| - 1]) {
      after := EndSplit(s[..|s| - 1]);
      after := after + [s[|s| - 1]];
    }
  }

  /** Trimming leaves what stands between the outermost blanks, and nothing else does. */
  lemma TrimExactly(s: string, t: string)
    ensures t == Trim(s) <==> exists before, after :: Between(s, before, t, after)
  {
    if before, after :| Between(s, before, t, after) {
      if t == "" {
        assert before + t + after == before + after + t;
        StartOf(before + after, t);
      } else {
        assert before + t + after == before + (t + after);
        StartOf(before, t + after);
        EndOf(t, after);
      }
    }
    if t == Trim(s) {
      var before := StartSplit(s);
      var after := EndSplit(TrimStart(s));
      assert s == before + t + after;
      assert t != "" ==> TrimStart(s)[0] == t[0];
      assert Between(s, before, t, after);
    }
  }
}
