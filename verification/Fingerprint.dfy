/** The fingerprint is lossless: unique decodability of the canonical text.
    Models `stableIdempotencyFingerprint` of src/inventory/idempotency.ts. */
module Fingerprint {
  import opened Canonical
  import opened CanonicalInjective

  // --- reading a text from the left ---------------------------------------------------------------

  lemma Cancel(a: string, x: string, y: string)
    requires a + x == a + y
    ensures x == y
  {
    assert x == (a + x)[|a|..] && y == (a + y)[|a|..];
  }

  lemma TextShape(v: Value, x: string)
    requires v.Text?
    ensures Canon(v) + x == "string:" + (Quote(v.text) + x)
  {
  }

  lemma ArrayShape(v: Value, x: string)
    requires v.Array?
    ensures Canon(v) + x == "[" + (CanonItems(v.items) + ("]" + x))
  {
  }

  lemma RecordShape(v: Value, x: string)
    requires v.Record?
    ensures Canon(v) + x == "{" + (JoinEntries(Sort(Entries(v.fields))) + ("}" + x))
  {
  }

  /** Equal texts followed by delimiters (or nothing) have equal rests: no text is a proper prefix
      of another at a delimiter. */
  lemma {:induction false} CanonSplit(v: Value, x: string, w: Value, y: string)
    requires Canon(v) + x == Canon(w) + y && StartsWithStop(x) && StartsWithStop(y)
    ensures Canon(v) == Canon(w) && x == y
    decreases v, 1
  {
    FirstChar(v);
    FirstChar(w);
    assert (Canon(v) + x)[0] == Canon(v)[0] && (Canon(w) + y)[0] == Canon(w)[0];
    if IsAtom(v) {
      AtomText(v);
      AtomText(w);
      StopFreeSplit(Canon(v), x, Canon(w), y);
    } else if v.Text? {
      TextShape(v, x);
      TextShape(w, y);
      Cancel("string:", Quote(v.text) + x, Quote(w.text) + y);
      QuoteSplit(v.text, x, w.text, y);
    } else if v.Array? {
      ArrayShape(v, x);
      ArrayShape(w, y);
      Cancel("[", CanonItems(v.items) + ("]" + x), CanonItems(w.items) + ("]" + y));
      ItemsSplit(v.items, x, w.items, y);
    } else {
      var p, q := Sort(Entries(v.fields)), Sort(Entries(w.fields));
      RecordShape(v, x);
      RecordShape(w, y);
      Cancel("{", JoinEntries(p) + ("}" + x), JoinEntries(q) + ("}" + y));
      SortedEntriesFrom(v.fields);
      SortedEntriesFrom(w.fields);
      EntriesSplit(v.fields, p, x, w.fields, q, y);
    }
  }

  lemma {:induction false} ItemsSplit(a: seq<Value>, x: string, b: seq<Value>, y: string)
    requires CanonItems(a) + ("]" + x) == CanonItems(b) + ("]" + y)
    ensures CanonItems(a) == CanonItems(b) && |a| == |b| && x == y
    ensures forall i :: 0 <= i < |a| ==> Canon(a[i]) == Canon(b[i])
    decreases a, 0
  {
    var l, r := CanonItems(a) + ("]" + x), CanonItems(b) + ("]" + y);
    ItemsHead(a, x);
    ItemsHead(b, y);
    if a != [] {
      CanonSplit(a[0], ItemsRest(a, x), b[0], ItemsRest(b, y));
      assert (|a| == 1 <==> ItemsRest(a, x)[0] == ']') && (|b| == 1 <==> ItemsRest(b, y)[0] == ']');
      if |a| == 1 {
        assert ItemsRest(a, x)[1..] == x && ItemsRest(b, y)[1..] == y;
      } else {
        assert ItemsRest(a, x)[1..] == CanonItems(a[1..]) + ("]" + x);
        assert ItemsRest(b, y)[1..] == CanonItems(b[1..]) + ("]" + y);
        ItemsSplit(a[1..], x, b[1..], y);
        forall i | 0 <= i < |a| ensures Canon(a[i]) == Canon(b[i]) {
          if i > 0 {
            assert a[i] == a[1..][i - 1] && b[i] == b[1..][i - 1];
          }
        }
      }
    } else {
      assert l[1..] == x && r[1..] == y;
    }
  }

  /** What follows the first item of a list. */
  function ItemsRest(a: seq<Value>, x: string): string
    requires a != []
  {
    if |a| == 1 then "]" + x else "," + (CanonItems(a[1..]) + ("]" + x))
  }

  lemma ItemsHead(a: seq<Value>, x: string)
    ensures var l := CanonItems(a) + ("]" + x);
            && (l[0] == ']' <==> a == [])
            && (a != [] ==> l == Canon(a[0]) + ItemsRest(a, x) && StartsWithStop(ItemsRest(a, x)))
  {
    if a != [] {
      FirstChar(a[0]);
      assert CanonItems(a) + ("]" + x) == Canon(a[0]) + ItemsRest(a, x);
    }
  }

  /** Every entry is the key and text of some field. */
  predicate From(entries: seq<Entry>, fields: seq<Field>) {
    forall e :: e in entries ==> exists i :: 0 <= i < |fields| && e == Entry(fields[i].key, Canon(fields[i].value))
  }

  lemma {:induction false} EntriesAre(fields: seq<Field>)
    ensures |Entries(fields)| == |fields|
    ensures forall i :: 0 <= i < |fields| ==> Entries(fields)[i] == Entry(fields[i].key, Canon(fields[i].value))
  {
    if fields != [] {
      EntriesAre(fields[1..]);
    }
  }

  lemma SortedEntriesFrom(fields: seq<Field>)
    ensures From(Sort(Entries(fields)), fields)
  {
    EntriesAre(fields);
    SortMembers(Entries(fields));
  }

  function EntriesRest(p: seq<Entry>, x: string): string
    requires p != []
  {
    if |p| == 1 then "}" + x else "," + (JoinEntries(p[1..]) + ("}" + x))
  }

  lemma EntriesHead(p: seq<Entry>, x: string)
    requires p != []
    ensures JoinEntries(p) + ("}" + x) == Quote(p[0].key) + (":" + (p[0].text + EntriesRest(p, x)))
    ensures StartsWithStop(EntriesRest(p, x))
  {
    var tail := if |p| == 1 then "" else "," + JoinEntries(p[1..]);
    assert tail + ("}" + x) == EntriesRest(p, x);
    Regroup(Quote(p[0].key), p[0].text, tail, "}" + x);
  }

  lemma Regroup(key: string, text: string, tail: string, x: string)
    ensures key + ":" + text + tail + x == key + (":" + (text + (tail + x)))
  {
  }

  lemma EntriesEmpty(p: seq<Entry>, x: string)
    ensures (JoinEntries(p) + ("}" + x))[0] == '}' <==> p == []
  {
    if p != [] {
      EntriesHead(p, x);
      assert (JoinEntries(p) + ("}" + x))[0] == Quote(p[0].key)[0];
    }
  }

  lemma EntriesHeadSplit(p: seq<Entry>, x: string, q: seq<Entry>, y: string)
    requires p != [] && q != []
    requires JoinEntries(p) + ("}" + x) == JoinEntries(q) + ("}" + y)
    ensures p[0].key == q[0].key && p[0].text + EntriesRest(p, x) == q[0].text + EntriesRest(q, y)
  {
    var lt, rt := p[0].text + EntriesRest(p, x), q[0].text + EntriesRest(q, y);
    EntriesHead(p, x);
    EntriesHead(q, y);
    QuoteSplit(p[0].key, ":" + lt, q[0].key, ":" + rt);
    Cancel(":", lt, rt);
  }

  lemma EntriesTailSplit(p: seq<Entry>, x: string, q: seq<Entry>, y: string)
    requires p != [] && q != [] && EntriesRest(p, x) == EntriesRest(q, y)
    ensures |p| == 1 <==> |q| == 1
    ensures if |p| == 1 then x == y else JoinEntries(p[1..]) + ("}" + x) == JoinEntries(q[1..]) + ("}" + y)
  {
    assert EntriesRest(p, x)[0] == (if |p| == 1 then '}' else ',');
    assert EntriesRest(q, y)[0] == (if |q| == 1 then '}' else ',');
    if |p| == 1 {
      Cancel("}", x, y);
    } else {
      Cancel(",", JoinEntries(p[1..]) + ("}" + x), JoinEntries(q[1..]) + ("}" + y));
    }
  }

  lemma {:induction false} FirstEntriesAgree(f: seq<Field>, p: seq<Entry>, x: string, g: seq<Field>, q: seq<Entry>,
                                             y: string)
    requires From(p, f) && From(q, g) && p != [] && q != []
    requires JoinEntries(p) + ("}" + x) == JoinEntries(q) + ("}" + y)
    ensures p[0] == q[0] && EntriesRest(p, x) == EntriesRest(q, y)
    decreases f, 0
  {
    EntriesHeadSplit(p, x, q, y);
    assert p[0] in p && q[0] in q;
    var i :| 0 <= i < |f| && p[0] == Entry(f[i].key, Canon(f[i].value));
    var j :| 0 <= j < |g| && q[0] == Entry(g[j].key, Canon(g[j].value));
    CanonSplit(f[i].value, EntriesRest(p, x), g[j].value, EntriesRest(q, y));
  }

  lemma {:induction false} EntriesSplit(f: seq<Field>, p: seq<Entry>, x: string, g: seq<Field>, q: seq<Entry>,
                                        y: string)
    requires From(p, f) && From(q, g)
    requires JoinEntries(p) + ("}" + x) == JoinEntries(q) + ("}" + y)
    ensures p == q && x == y
    decreases f, 1, |p|
  {
    EntriesEmpty(p, x);
    EntriesEmpty(q, y);
    if p == [] {
      assert JoinEntries(p) + ("}" + x) == "}" + x && JoinEntries(q) + ("}" + y) == "}" + y;
      Cancel("}", x, y);
    } else {
      FirstEntriesAgree(f, p, x, g, q, y);
      EntriesTailSplit(p, x, q, y);
      if |p| > 1 {
        assert forall e :: e in p[1..] ==> e in p;
        assert forall e :: e in q[1..] ==> e in q;
        EntriesSplit(f, p[1..], x, g, q[1..], y);
      }
      assert p == [p[0]] + p[1..] && q == [q[0]] + q[1..];
    }
  }

  // --- sorting ----------------------------------------------------------------------------------

  lemma {:induction false} SortMembers(entries: seq<Entry>)
    ensures forall e :: e in Sort(entries) <==> e in entries
    ensures |Sort(entries)| == |entries|
  {
    if entries != [] {
      SortMembers(entries[1..]);
      InsertMembers(entries[0], Sort(entries[1..]));
    }
  }

  lemma {:induction false} InsertMembers(e: Entry, sorted: seq<Entry>)
    ensures forall d :: d in Insert(e, sorted) <==> d == e || d in sorted
    ensures |Insert(e, sorted)| == |sorted| + 1
  {
    if sorted != [] {
      InsertMembers(e, sorted[1..]);
    }
  }

  predicate StrictlySorted(entries: seq<Entry>) {
    forall i, j :: 0 <= i < j < |entries| ==> Less(entries[i].key, entries[j].key)
  }

  lemma {:induction false} LessIsTotal(s: string, t: string)
    ensures Less(s, t) || Less(t, s) || s == t
    ensures !(Less(s, t) && Less(t, s)) && !Less(s, s)
  {
    if s != [] && t != [] {
      LessIsTotal(s[1..], t[1..]);
      assert s == [s[0]] + s[1..] && t == [t[0]] + t[1..];
    }
    if s != [] {
      LessIsTotal(s[1..], s[1..]);
    }
  }

  lemma {:induction false} LessIsTransitive(s: string, t: string, u: string)
    requires Less(s, t) && Less(t, u)
    ensures Less(s, u)
  {
    if s != [] && s[0] == t[0] && t[0] == u[0] {
      LessIsTransitive(s[1..], t[1..], u[1..]);
    }
  }

  lemma {:induction false} InsertSorted(e: Entry, sorted: seq<Entry>)
    requires StrictlySorted(sorted) && forall d :: d in sorted ==> d.key != e.key
    ensures StrictlySorted(Insert(e, sorted))
  {
    if sorted != [] {
      var head, tail := sorted[0], sorted[1..];
      LessIsTotal(head.key, e.key);
      if Less(head.key, e.key) {
        InsertSorted(e, tail);
        InsertMembers(e, tail);
        var rest := Insert(e, tail);
        forall j | 0 <= j < |rest| ensures Less(head.key, rest[j].key) {
          assert rest[j] in rest;
        }
      } else {
        forall j | 0 <= j < |sorted| ensures Less(e.key, sorted[j].key) {
          if j > 0 {
            LessIsTransitive(e.key, head.key, sorted[j].key);
          }
        }
      }
    }
  }

  lemma {:induction false} SortSorts(entries: seq<Entry>)
    requires forall i, j :: 0 <= i < j < |entries| ==> entries[i].key != entries[j].key
    ensures StrictlySorted(Sort(entries))
  {
    if entries != [] {
      SortSorts(entries[1..]);
      SortMembers(entries[1..]);
      InsertSorted(entries[0], Sort(entries[1..]));
    }
  }

  /** A strictly sorted list is determined by its elements. */
  lemma {:induction false} SortedUnique(p: seq<Entry>, q: seq<Entry>)
    requires StrictlySorted(p) && StrictlySorted(q) && (forall e :: e in p <==> e in q)
    ensures p == q
  {
    assert p != [] ==> p[0] in p;
    assert q != [] ==> q[0] in q;
    if p != [] {
      assert p[0] in q && q[0] in p;
      var i :| 0 <= i < |q| && q[i] == p[0];
      var j :| 0 <= j < |p| && p[j] == q[0];
      LessIsTotal(p[0].key, q[0].key);
      assert p[0] == q[0];
      forall e ensures e in p[1..] <==> e in q[1..] {
        TailMember(p, e);
        TailMember(q, e);
      }
      SortedUnique(p[1..], q[1..]);
      assert p == [p[0]] + p[1..] && q == [q[0]] + q[1..];
    }
  }

  lemma TailMember(p: seq<Entry>, e: Entry)
    requires StrictlySorted(p) && p != []
    ensures e in p[1..] <==> e in p && e != p[0]
  {
    LessIsTotal(p[0].key, p[0].key);
    assert p == [p[0]] + p[1..];
    if e in p[1..] {
      var i :| 0 <= i < |p[1..]| && p[1..][i] == e;
      assert p[i + 1] == e && Less(p[0].key, p[i + 1].key);
    }
  }

  // --- lossless ---------------------------------------------------------------------------------

  lemma SameTextSameEntries(v: Value, w: Value)
    requires v.Record? && w.Record? && Canon(v) == Canon(w)
    ensures |v.fields| == |w.fields|
    ensures forall e :: e in Entries(v.fields) ==> e in Entries(w.fields)
  {
    var p, q := Sort(Entries(v.fields)), Sort(Entries(w.fields));
    RecordShape(v, "");
    RecordShape(w, "");
    assert Canon(v) + "" == Canon(v) && Canon(w) + "" == Canon(w);
    Cancel("{", JoinEntries(p) + ("}" + ""), JoinEntries(q) + ("}" + ""));
    SortedEntriesFrom(v.fields);
    SortedEntriesFrom(w.fields);
    EntriesSplit(v.fields, p, "", w.fields, q, "");
    SortMembers(Entries(v.fields));
    SortMembers(Entries(w.fields));
    EntriesAre(v.fields);
    EntriesAre(w.fields);
  }

  lemma {:induction false} SameTextSameValue(v: Value, w: Value)
    requires WellFormed(v) && WellFormed(w) && Canon(v) == Canon(w)
    ensures Equal(v, w)
    decreases v
  {
    FirstChar(v);
    FirstChar(w);
    if IsAtom(v) {
      AtomInjective(v, w);
    } else if v.Text? {
      TextShape(v, "");
      TextShape(w, "");
      Cancel("string:", Quote(v.text) + "", Quote(w.text) + "");
      QuoteSplit(v.text, "", w.text, "");
    } else if v.Array? {
      ArrayShape(v, "");
      ArrayShape(w, "");
      Cancel("[", CanonItems(v.items) + ("]" + ""), CanonItems(w.items) + ("]" + ""));
      ItemsSplit(v.items, "", w.items, "");
      forall i | 0 <= i < |v.items| ensures Equal(v.items[i], w.items[i]) {
        SameTextSameValue(v.items[i], w.items[i]);
      }
    } else {
      SameTextSameEntries(v, w);
      EntriesAre(v.fields);
      EntriesAre(w.fields);
      forall i | 0 <= i < |v.fields|
        ensures exists j :: 0 <= j < |w.fields|
                            && v.fields[i].key == w.fields[j].key && Equal(v.fields[i].value, w.fields[j].value)
      {
        assert Entries(v.fields)[i] in Entries(w.fields);
        var j :| 0 <= j < |w.fields| && Entries(w.fields)[j] == Entries(v.fields)[i];
        SameTextSameValue(v.fields[i].value, w.fields[j].value);
      }
    }
  }

  lemma {:induction false} SameValueSameText(v: Value, w: Value)
    requires WellFormed(v) && WellFormed(w) && Equal(v, w)
    ensures Canon(v) == Canon(w)
    decreases v
  {
    if v.Array? {
      forall i | 0 <= i < |v.items| ensures Canon(v.items[i]) == Canon(w.items[i]) {
        SameValueSameText(v.items[i], w.items[i]);
      }
      ItemsAgree(v.items, w.items);
    } else if v.Record? {
      var d, e := Entries(v.fields), Entries(w.fields);
      EntriesAre(v.fields);
      EntriesAre(w.fields);
      forall i | 0 <= i < |d| ensures d[i] in e {
        var j :| 0 <= j < |w.fields| && v.fields[i].key == w.fields[j].key
            && Equal(v.fields[i].value, w.fields[j].value);
        SameValueSameText(v.fields[i].value, w.fields[j].value);
        assert e[j] == d[i];
      }
      SubsetOfSameSize(d, e);
      SortMembers(d);
      SortMembers(e);
      SortSorts(d);
      SortSorts(e);
      SortedUnique(Sort(d), Sort(e));
    }
  }

  lemma {:induction false} ItemsAgree(a: seq<Value>, b: seq<Value>)
    requires |a| == |b| && forall i :: 0 <= i < |a| ==> Canon(a[i]) == Canon(b[i])
    ensures CanonItems(a) == CanonItems(b)
  {
    if a != [] {
      ItemsAgree(a[1..], b[1..]);
    }
  }

  /** Two duplicate-free lists of one length: inclusion one way is inclusion both ways. */
  lemma SubsetOfSameSize(d: seq<Entry>, e: seq<Entry>)
    requires |d| == |e| && (forall i :: 0 <= i < |d| ==> d[i] in e)
    requires forall i, j :: 0 <= i < j < |d| ==> d[i].key != d[j].key
    requires forall i, j :: 0 <= i < j < |e| ==> e[i].key != e[j].key
    ensures forall x :: x in d <==> x in e
  {
    var sd, se := set x | x in d, set x | x in e;
    SizeOfDistinct(d);
    SizeOfDistinct(e);
    assert sd <= se;
    EqualBySize(sd, se);
    forall x ensures x in d <==> x in e {
      assert x in sd <==> x in se;
    }
  }

  lemma {:induction false} SizeOfDistinct(d: seq<Entry>)
    requires forall i, j :: 0 <= i < j < |d| ==> d[i].key != d[j].key
    ensures |set x | x in d| == |d|
  {
    if d != [] {
      SizeOfDistinct(d[1..]);
      assert (set x | x in d) == {d[0]} + (set x | x in d[1..]);
    }
  }

  lemma EqualBySize<T>(a: set<T>, b: set<T>)
    requires a <= b && |a| == |b|
    ensures a == b
  {
    assert b == a + (b - a);
    assert |b| == |a| + |b - a|;
  }

  function StableFingerprint(v: Value): string {
    "v1-" + Canon(v)
  }

  /** Two values have the same fingerprint exactly when they are equal up to record key order. */
  lemma FingerprintIsLossless(v: Value, w: Value)
    requires WellFormed(v) && WellFormed(w)
    ensures StableFingerprint(v) == StableFingerprint(w) <==> Equal(v, w)
  {
    assert StableFingerprint(v)[3..] == Canon(v) && StableFingerprint(w)[3..] == Canon(w);
    if Canon(v) == Canon(w) {
      SameTextSameValue(v, w);
    } else if Equal(v, w) {
      SameValueSameText(v, w);
    }
  }
}
