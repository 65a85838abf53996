/** The schedule builder of cps.py: the form's milestone rows are collected
    into the `milestones` dict (cps.py:22-29), and the dict is walked in
    insertion order to give one (name, offset, date) row per milestone
    (cps.py:35-41). The dict is an association list in insertion order. */
module Schedule {
  import opened Dates
  import opened BusinessDays

  /** A milestone name with its offset in days after the base date: one row
      of the form, and one item of the `milestones` dict. */
  datatype Milestone = Milestone(name: string, offset: int)

  /** One row of `schedule_data`: the columns Milestone, Days After Base
      Date and Date. */
  datatype Entry = Entry(milestone: string, daysAfter: int, date: Date)

  datatype Option<T> = None | Some(value: T)

  function Names(m: seq<Milestone>): seq<string> {
    seq(|m|, i requires 0 <= i < |m| => m[i].name)
  }

  predicate Distinct(s: seq<string>) {
    forall i, j :: 0 <= i < j < |s| ==> s[i] != s[j]
  }

  /** `milestones.get(name)`: the offset stored under the first entry with
      that name. */
  function Lookup(m: seq<Milestone>, name: string): (r: Option<int>)
    ensures r.Some? <==> name in Names(m)
  {
    if m == [] then None
    else
      assert Names(m) == [m[0].name] + Names(m[1..]);
      if m[0].name == name then Some(m[0].offset) else Lookup(m[1..], name)
  }

  /** `milestones[name] = offset`: a name already present keeps its place
      and takes the new offset; a new name is appended at the end. */
  function Upsert(m: seq<Milestone>, name: string, offset: int): (r: seq<Milestone>)
    ensures name in Names(m) ==> Names(r) == Names(m)
    ensures name !in Names(m) ==> Names(r) == Names(m) + [name]
    ensures Lookup(r, name) == Some(offset)
    ensures forall k :: k != name ==> Lookup(r, k) == Lookup(m, k)
  {
    if m == [] then [Milestone(name, offset)]
    else
      assert Names(m) == [m[0].name] + Names(m[1..]);
      if m[0].name == name then [Milestone(name, offset)] + m[1..]
      else
      var rest := Upsert(m[1..], name, offset);
      assert Names([m[0]] + rest) == [m[0].name] + Names(rest);
      assert ([m[0]] + rest)[1..] == rest;
      [m[0]] + rest
  }

  /** The dict after the collection loop of cps.py:26-29: every row of the
      form written into it in turn. */
  function Collected(rows: seq<Milestone>): seq<Milestone> {
    if rows == [] then []
    else
      var k := |rows| - 1;
      Upsert(Collected(rows[..k]), rows[k].name, rows[k].offset)
  }

  /** The offset the last row with this name gave, if any row has it: the
      value a dict keeps when a key is written more than once. */
  function LastOffset(rows: seq<Milestone>, name: string): (r: Option<int>)
    ensures r.Some? ==> exists i :: 0 <= i < |rows| && rows[i] == Milestone(name, r.value)
  {
    if rows == [] then None
    else
      var k := |rows| - 1;
      if rows[k].name == name then Some(rows[k].offset) else LastOffset(rows[..k], name)
  }

  /** The position of the first occurrence of x in s, or |s| if there is none. */
  function FirstIndex(s: seq<string>, x: string): (r: nat)
    ensures r <= |s|
    ensures r < |s| <==> x in s
    ensures r < |s| ==> s[r] == x
    ensures x !in s[..r]
  {
    if s == [] then 0
    else if s[0] == x then 0
    else
      var r := 1 + FirstIndex(s[1..], x);
      assert s[..r] == [s[0]] + s[1..][..r - 1];
      r
  }

  lemma {:induction false} FirstIndexOfPrefix(s: seq<string>, t: seq<string>, x: string)
    requires x in s
    ensures FirstIndex(s + t, x) == FirstIndex(s, x)
  {
    if s[0] != x {
      assert (s + t)[1..] == s[1..] + t;
      FirstIndexOfPrefix(s[1..], t, x);
    }
  }

  lemma FirstIndexOfNew(s: seq<string>, x: string)
    requires x !in s
    ensures FirstIndex(s + [x], x) == |s|
  {
  }

  /** The collected dict has each name of the form exactly once, and no
      other name. */
  lemma {:induction false} CollectedNames(rows: seq<Milestone>)
    ensures Distinct(Names(Collected(rows)))
    ensures forall n :: n in Names(Collected(rows)) <==> n in Names(rows)
    ensures |Collected(rows)| <= |rows|
  {
    if rows != [] {
      var k := |rows| - 1;
      var p := Collected(rows[..k]);
      CollectedNames(rows[..k]);
      assert Names(rows) == Names(rows[..k]) + [rows[k].name];
    }
  }

  /** A name written again keeps the value of its last row. */
  lemma {:induction false} CollectedOffsets(rows: seq<Milestone>, name: string)
    ensures Lookup(Collected(rows), name) == LastOffset(rows, name)
  {
    if rows != [] {
      CollectedOffsets(rows[..|rows| - 1], name);
    }
  }

  /** The names of `keys` stand in the order of their first occurrences
      in s. */
  predicate InFirstOrder(keys: seq<string>, s: seq<string>) {
    forall i, j :: 0 <= i < j < |keys| ==> FirstIndex(s, keys[i]) < FirstIndex(s, keys[j])
  }

  lemma InFirstOrderExtend(keys: seq<string>, s: seq<string>, x: string)
    requires InFirstOrder(keys, s)
    requires forall k :: k in keys ==> k in s
    ensures InFirstOrder(keys, s + [x])
    ensures x !in s ==> InFirstOrder(keys + [x], s + [x])
  {
    forall k | k in keys
      ensures FirstIndex(s + [x], k) == FirstIndex(s, k) < |s|
    {
      FirstIndexOfPrefix(s, [x], k);
    }
    if x !in s {
      FirstIndexOfNew(s, x);
      var ks := keys + [x];
      forall i, j | 0 <= i < j < |ks|
        ensures FirstIndex(s + [x], ks[i]) < FirstIndex(s + [x], ks[j])
      {
        assert ks[i] in keys;
        if j < |keys| {
          assert ks[j] in keys;
        }
      }
    }
  }

  /** The dict is in insertion order: its names stand in the order of their
      FIRST rows in the form, whatever later rows rewrote them. */
  lemma {:induction false} CollectedOrder(rows: seq<Milestone>)
    ensures InFirstOrder(Names(Collected(rows)), Names(rows))
  {
    if rows != [] {
      var k := |rows| - 1;
      var p := Collected(rows[..k]);
      var ns := Names(rows[..k]);
      assert Names(rows) == ns + [rows[k].name];
      CollectedOrder(rows[..k]);
      CollectedNames(rows[..k]);
      InFirstOrderExtend(Names(p), ns, rows[k].name);
    }
  }

  /** The date a milestone resolves to (cps.py:37-40): `add_business_days`
      in business-day mode, `base_date + timedelta(days=offset)` otherwise. */
  function ResolveDate(base: Date, offset: int, businessDays: bool): Result<Date> {
    if businessDays then BusinessOffset(base, offset) else AddDays(base, offset)
  }

  /** What a resolved date is in each mode: the calendar date exactly
      `offset` days on, or for a positive count a business day strictly
      after the base with exactly `offset` business days up to it; never
      before the calendar-day date. */
  lemma ResolveDateMeaning(base: Date, offset: int, businessDays: bool)
    requires ResolveDate(base, offset, businessDays).Ok?
    ensures !businessDays ==> ResolveDate(base, offset, businessDays).value == base + offset
    ensures businessDays && offset > 0 ==>
      var d := ResolveDate(base, offset, businessDays).value;
      base < d && IsBusinessDay(d) && CountBusinessDays(base, d) == offset
    ensures offset >= 0 ==> base + offset <= ResolveDate(base, offset, businessDays).value
  {
    if businessDays && offset > 0 {
      CountToResult(base, offset);
    }
  }

  /** Milestones are independent of each other: a larger offset never
      resolves to an earlier date, and a strictly larger one resolves to a
      strictly later date. */
  lemma ResolveMonotone(base: Date, a: nat, b: nat, businessDays: bool)
    requires a <= b
    requires ResolveDate(base, b, businessDays).Ok?
    ensures ResolveDate(base, a, businessDays).Ok?
    ensures ResolveDate(base, a, businessDays).value <= ResolveDate(base, b, businessDays).value
    ensures a < b ==> ResolveDate(base, a, businessDays).value < ResolveDate(base, b, businessDays).value
  {
    if businessDays && a < b {
      StrictlyMonotone(base, a, b);
    }
  }

  /** The collection loop of cps.py:22-29. */
  method CollectMilestones(rows: seq<Milestone>) returns (m: seq<Milestone>)
    ensures m == Collected(rows)
    ensures Distinct(Names(m)) && |m| <= |rows|
    ensures forall n :: n in Names(m) <==> n in Names(rows)
    ensures forall n :: Lookup(m, n) == LastOffset(rows, n)
  {
    m := [];
    for i := 0 to |rows|
      invariant m == Collected(rows[..i])
    {
      assert rows[..i + 1][..i] == rows[..i];
      m := Upsert(m, rows[i].name, rows[i].offset);
    }
    assert rows[..|rows|] == rows;
    CollectedNames(rows);
    forall n {
      CollectedOffsets(rows, n);
    }
  }

  /** The schedule loop of cps.py:35-41: one row per dict item, in the
      dict's order, with name and offset copied and the date resolved in the
      chosen mode. An OverflowError from any date ends the script, so no
      schedule is produced. */
  method BuildSchedule(base: Date, m: seq<Milestone>, businessDays: bool) returns (r: Result<seq<Entry>>)
    ensures r.Err? <==> exists i :: 0 <= i < |m| && ResolveDate(base, m[i].offset, businessDays).Err?
    ensures r.Ok? ==> |r.value| == |m|
    ensures r.Ok? ==> forall i :: 0 <= i < |m| ==>
      r.value[i] == Entry(m[i].name, m[i].offset, ResolveDate(base, m[i].offset, businessDays).value)
  {
    var rows: seq<Entry> := [];
    for i := 0 to |m|
      invariant |rows| == i
      invariant forall j :: 0 <= j < i ==> ResolveDate(base, m[j].offset, businessDays).Ok?
      invariant forall j :: 0 <= j < i ==>
        rows[j] == Entry(m[j].name, m[j].offset, ResolveDate(base, m[j].offset, businessDays).value)
    {
      var date: Result<Date>;
      if businessDays {
        date := AddBusinessDays(base, m[i].offset);
      } else {
        date := AddDays(base, m[i].offset);
      }
      if date.Err? {
        return Err(date.error);
      }
      rows := rows + [Entry(m[i].name, m[i].offset, date.value)];
    }
    r := Ok(rows);
  }

  /** The form's bounds: 1 to 20 milestone rows, every offset at least 0
      (cps.py:23, cps.py:28). */
  predicate FormBounds(rows: seq<Milestone>) {
    1 <= |rows| <= 20 && forall i :: 0 <= i < |rows| ==> rows[i].offset >= 0
  }

  /** Every item of the collected dict holds the offset of the last row
      that named it. */
  lemma CollectedItems(rows: seq<Milestone>)
    ensures forall i :: 0 <= i < |Collected(rows)| ==>
      LastOffset(rows, Collected(rows)[i].name) == Some(Collected(rows)[i].offset)
  {
    var c := Collected(rows);
    CollectedNames(rows);
    forall i | 0 <= i < |c|
      ensures LastOffset(rows, c[i].name) == Some(c[i].offset)
    {
      assert Names(c)[i] == c[i].name;
      LookupDistinct(c, i);
      CollectedOffsets(rows, c[i].name);
    }
  }

  /** In a dict without repeated names, looking a name up finds its item. */
  lemma {:induction false} LookupDistinct(m: seq<Milestone>, i: nat)
    requires Distinct(Names(m)) && i < |m|
    ensures Lookup(m, m[i].name) == Some(m[i].offset)
  {
    assert Names(m)[0] == m[0].name && Names(m)[i] == m[i].name;
    if i > 0 {
      assert Names(m[1..]) == Names(m)[1..];
      LookupDistinct(m[1..], i - 1);
    }
  }

  /** cps.py:22-41 from the form's rows to `schedule_data`: one row per item
      of the collected dict, in its order, dated by `add_business_days` or
      by a calendar offset as the flag says, and no schedule exactly when
      one of those dates overflows. With CollectedNames, CollectedOrder and CollectedItems this is
      one row per distinct milestone name, in the order the names first
      appeared, with the offset of the last row that named it. */
  method GenerateSchedule(base: Date, rows: seq<Milestone>, businessDays: bool)
      returns (r: Result<seq<Entry>>)
    requires FormBounds(rows)
    ensures r.Err? <==>
      (exists i :: 0 <= i < |Collected(rows)| && ResolveDate(base, Collected(rows)[i].offset, businessDays).Err?)
    ensures r.Ok? ==> 1 <= |r.value| == |Collected(rows)| <= 20
    ensures r.Ok? ==> forall i :: 0 <= i < |r.value| ==>
      r.value[i].milestone == Collected(rows)[i].name &&
      r.value[i].daysAfter == Collected(rows)[i].offset >= 0 &&
      r.value[i].date == ResolveDate(base, Collected(rows)[i].offset, businessDays).value &&
      base + r.value[i].daysAfter <= r.value[i].date
  {
    var m := CollectMilestones(rows);
    r := BuildSchedule(base, m, businessDays);
    if r.Ok? {
      assert Names(rows)[0] in Names(m);
      CollectedItems(rows);
      forall i | 0 <= i < |m|
        ensures m[i].offset >= 0
        ensures base + m[i].offset <= r.value[i].date
      {
        ResolveDateMeaning(base, m[i].offset, businessDays);
      }
    }
  }
}
