/** The Counter class (collectd.py:118-149): a two-level table
    specific -> stat -> value that `record` adds to, `set_exact` overwrites
    and `snapshot` reads out under derived names and resets to zero. */
module Counters {
  import opened Python
  import opened Sanitizer

  /** `self.counts`: a defaultdict of defaultdicts of floats. A row or a cell
      exists once it has been written. */
  type Cells = map<Bytes, map<Bytes, real>>

  /** The keyword arguments of a call, in the order `kwargs.items()` yields
      them. */
  type Stats = seq<(Bytes, Py)>

  /** The cell exists. */
  predicate Has(c: Cells, specific: Bytes, stat: Bytes) {
    specific in c && stat in c[specific]
  }

  /** What `counts[specific][stat]` reads: a missing cell reads as 0.0. */
  function Get(c: Cells, specific: Bytes, stat: Bytes): real {
    if Has(c, specific, stat) then c[specific][stat] else 0.0
  }

  /** `counts[specific][stat] = v`, creating the row and the cell as needed. */
  function Put(c: Cells, specific: Bytes, stat: Bytes, v: real): Cells {
    var row := if specific in c then c[specific] else map[];
    c[specific := row[stat := v]]
  }

  /** Put creates the one cell if it is missing, sets it to `v` and changes
      no other cell. */
  lemma PutCells(c: Cells, specific: Bytes, stat: Bytes, v: real)
    ensures var r := Put(c, specific, stat, v);
            forall sp, st :: Has(r, sp, st) <==> Has(c, sp, st) || (sp == specific && st == stat)
    ensures var r := Put(c, specific, stat, v);
            forall sp, st :: Get(r, sp, st) == if sp == specific && st == stat then v else Get(c, sp, st)
  {
  }

  /** All arguments pass `isinstance(value, (int, float))`. */
  predicate AllNumbers(stats: Stats) {
    forall i :: 0 <= i < |stats| ==> IsNumber(stats[i].1)
  }

  /** All arguments pass `isinstance(specific, basestring)`. */
  predicate AllStrings(specifics: seq<Py>) {
    forall i :: 0 <= i < |specifics| ==> specifics[i].PyStr?
  }

  /** The inner loop of `record` for one specific: each value is checked and
      added in turn, and the first value that is not a number raises with the
      earlier additions in place. */
  function AddStats(c: Cells, specific: Bytes, stats: Stats): (Cells, Outcome)
    decreases |stats|
  {
    if stats == [] then (c, Done)
    else if !IsNumber(stats[0].1) then (c, Raised(AssertionError))
    else
      var stat := stats[0].0;
      AddStats(Put(c, specific, stat, Get(c, specific, stat) + AsReal(stats[0].1)), specific, stats[1..])
  }

  /** The outer loop of `record`: every specific is checked before its stats
      are added, and the first failure ends the call. */
  function Recorded(c: Cells, specifics: seq<Py>, stats: Stats): (Cells, Outcome)
    decreases |specifics|
  {
    if specifics == [] then (c, Done)
    else if !specifics[0].PyStr? then (c, Raised(AssertionError))
    else
      var next := AddStats(c, specifics[0].s, stats);
      if next.1.Raised? then next else Recorded(next.0, specifics[1..], stats)
  }

  /** The loop of `set_exact`: each value is checked and stored in the row
      of the empty specific. */
  function SetAll(c: Cells, stats: Stats): (Cells, Outcome)
    decreases |stats|
  {
    if stats == [] then (c, Done)
    else if !IsNumber(stats[0].1) then (c, Raised(AssertionError))
    else SetAll(Put(c, "", stats[0].0, AsReal(stats[0].1)), stats[1..])
  }

  /** The names of the keyword arguments. */
  function Keys(stats: Stats): set<Bytes> {
    set i | 0 <= i < |stats| :: stats[i].0
  }

  /** The sum of the values given for `stat`. */
  function Total(stats: Stats, stat: Bytes): real
    requires AllNumbers(stats)
  {
    if stats == [] then 0.0
    else (if stats[0].0 == stat then AsReal(stats[0].1) else 0.0) + Total(stats[1..], stat)
  }

  /** The last value given for `stat`. */
  function Last(stats: Stats, stat: Bytes): real
    requires AllNumbers(stats) && stat in Keys(stats)
  {
    if stat in Keys(stats[1..]) then Last(stats[1..], stat) else AsReal(stats[0].1)
  }

  /** How often the string `specific` occurs in `specifics`. */
  function Occurrences(specifics: seq<Py>, specific: Bytes): nat {
    if specifics == [] then 0
    else (if specifics[0] == PyStr(specific) then 1 else 0) + Occurrences(specifics[1..], specific)
  }

  /** `s.replace("--", "-")`, scanning left to right. */
  function Undouble(s: Bytes): Bytes {
    if |s| >= 2 && s[0] == '-' && s[1] == '-' then "-" + Undouble(s[2..])
    else if s == [] then []
    else [s[0]] + Undouble(s[1..])
  }

  /** The key `snapshot` reports a cell under. */
  function DerivedName(category: Bytes, specific: Bytes, stat: Bytes): Bytes {
    Undouble(Sanitize(category) + "-" + Sanitize(specific) + "-" + Sanitize(stat))
  }

  /** Every cell kept, every value 0.0. */
  function Zeroed(c: Cells): (r: Cells)
    ensures forall sp, st :: Has(r, sp, st) <==> Has(c, sp, st)
    ensures forall sp, st :: Get(r, sp, st) == 0.0
  {
    map sp | sp in c :: ZeroRow(c[sp])
  }

  function ZeroRow(row: map<Bytes, real>): map<Bytes, real> {
    map st | st in row :: 0.0
  }

  /** `totals` is what one pass of `snapshot` over `c` returns, in some order
      of the two dicts: every cell is reported under its derived name, and
      each name holds the value of a cell derived to it. Where two cells share
      a name, the one visited last wins. */
  ghost predicate IsSnapshot(category: Bytes, c: Cells, totals: map<Bytes, real>) {
    NamedBy(Naming(category), c, totals)
  }

  /** DerivedName for the cells of one counter. */
  function Naming(category: Bytes): (Bytes, Bytes) -> Bytes {
    (sp: Bytes, st: Bytes) => DerivedName(category, sp, st)
  }

  /** Every cell of `c` is reported under `naming`, and every reported name
      holds the value of a cell named so. */
  ghost predicate NamedBy(naming: (Bytes, Bytes) -> Bytes, c: Cells, totals: map<Bytes, real>) {
    && (forall sp, st :: Has(c, sp, st) ==> naming(sp, st) in totals)
    && (forall name :: name in totals ==>
          exists sp, st :: Has(c, sp, st) && naming(sp, st) == name && totals[name] == c[sp][st])
  }

  class Counter {
    const category: Bytes
    var counts: Cells

    /** Counter(category): no cells yet. */
    constructor(category: Bytes)
      ensures this.category == category && counts == map[]
    {
      this.category := category;
      counts := map[];
    }

    /** record(*args, **kwargs). The exception, if any, is swallowed and
        logged; `logged` is what was logged. */
    method Record(args: seq<Py>, stats: Stats) returns (logged: Outcome)
      modifies this
      ensures (counts, logged) == Recorded(old(counts), args + [PyStr("")], stats)
    {
      var specifics := args + [PyStr("")];
      var i := 0;
      while i < |specifics|
        invariant 0 <= i <= |specifics|
        invariant Recorded(counts, specifics[i..], stats) == Recorded(old(counts), specifics, stats)
      {
        var specific := specifics[i];
        if !specific.PyStr? {
          return Raised(AssertionError);
        }
        ghost var before := counts;
        var j := 0;
        while j < |stats|
          invariant 0 <= j <= |stats|
          invariant AddStats(counts, specific.s, stats[j..]) == AddStats(before, specific.s, stats)
        {
          var stat := stats[j].0;
          var value := stats[j].1;
          if !IsNumber(value) {
            return Raised(AssertionError);
          }
          SuffixTail(stats, j);
          counts := Put(counts, specific.s, stat, Get(counts, specific.s, stat) + AsReal(value));
          j := j + 1;
        }
        SuffixTail(specifics, i);
        i := i + 1;
      }
      return Done;
    }

    /** set_exact(**kwargs). The exception, if any, is swallowed and logged. */
    method SetExact(stats: Stats) returns (logged: Outcome)
      modifies this
      ensures (counts, logged) == SetAll(old(counts), stats)
    {
      var j := 0;
      while j < |stats|
        invariant 0 <= j <= |stats|
        invariant SetAll(counts, stats[j..]) == SetAll(old(counts), stats)
      {
        var value := stats[j].1;
        if !IsNumber(value) {
          return Raised(AssertionError);
        }
        SuffixTail(stats, j);
        counts := Put(counts, "", stats[j].0, AsReal(value));
        j := j + 1;
      }
      return Done;
    }

    /** snapshot(): every cell is reported under its derived name and then
        reset to 0.0; the cells stay. */
    method Snapshot() returns (totals: map<Bytes, real>)
      modifies this
      ensures IsSnapshot(category, old(counts), totals)
      ensures counts == Zeroed(old(counts))
    {
      totals := Drain(Naming(category));
    }

    /** The two loops of `snapshot`, with the name of a cell computed by
        `naming`. */
    method Drain(naming: (Bytes, Bytes) -> Bytes) returns (totals: map<Bytes, real>)
      modifies this
      ensures NamedBy(naming, old(counts), totals)
      ensures counts == Zeroed(old(counts))
    {
      ghost var c0 := counts;
      ghost var from: map<Bytes, (Bytes, Bytes)> := map[];
      ghost var visited: set<(Bytes, Bytes)> := {};
      totals := map[];
      var todo := counts.Keys;
      ResetNone(c0);
      while todo != {}
        invariant todo <= c0.Keys
        invariant VisitedRows(c0, visited, todo)
        invariant counts == Reset(c0, visited)
        invariant Reported(naming, c0, visited, totals, from)
        decreases |todo|
      {
        var specific :| specific in todo;
        var pending := counts[specific].Keys;
        assert pending == c0[specific].Keys;
        VisitRow(c0, visited, todo, specific);
        while pending != {}
          invariant pending <= c0[specific].Keys
          invariant VisitedCells(c0, visited, todo, specific, pending)
          invariant counts == Reset(c0, visited)
          invariant Reported(naming, c0, visited, totals, from)
          decreases |pending|
        {
          var stat :| stat in pending;
          var name := naming(specific, stat);
          VisitCell(c0, visited, todo, specific, pending, stat);
          ReportStep(naming, c0, visited, totals, from, specific, stat);
          ResetStep(c0, visited, specific, stat);
          assert counts[specific][stat] == c0[specific][stat];
          totals := totals[name := counts[specific][stat]];
          from := from[name := (specific, stat)];
          counts := counts[specific := counts[specific][stat := 0.0]];
          visited := visited + {(specific, stat)};
          pending := pending - {stat};
        }
        VisitedRow(c0, visited, todo, specific);
        todo := todo - {specific};
      }
      ResetAll(c0, visited);
      WitnessedSnapshot(naming, c0, visited, totals, from);
    }
  }

  /** The cells `Drain` has visited: those of the rows it is done with. */
  ghost predicate VisitedRows(c: Cells, visited: set<(Bytes, Bytes)>, todo: set<Bytes>) {
    forall cell :: cell in visited <==> Has(c, cell.0, cell.1) && cell.0 !in todo
  }

  /** ... and, within the current row, those of the stats it is done with. */
  ghost predicate VisitedCells(c: Cells, visited: set<(Bytes, Bytes)>, todo: set<Bytes>, specific: Bytes,
                               pending: set<Bytes>) {
    forall cell :: cell in visited <==>
      Has(c, cell.0, cell.1) && (cell.0 !in todo || (cell.0 == specific && cell.1 !in pending))
  }

  lemma VisitRow(c: Cells, visited: set<(Bytes, Bytes)>, todo: set<Bytes>, specific: Bytes)
    requires VisitedRows(c, visited, todo) && specific in todo && specific in c
    ensures VisitedCells(c, visited, todo, specific, c[specific].Keys)
  {
  }

  lemma VisitCell(c: Cells, visited: set<(Bytes, Bytes)>, todo: set<Bytes>, specific: Bytes,
                  pending: set<Bytes>, stat: Bytes)
    requires VisitedCells(c, visited, todo, specific, pending) && stat in pending
    requires specific in todo && Has(c, specific, stat)
    ensures VisitedCells(c, visited + {(specific, stat)}, todo, specific, pending - {stat})
    ensures (specific, stat) !in visited && |pending - {stat}| < |pending|
  {
  }

  lemma VisitedRow(c: Cells, visited: set<(Bytes, Bytes)>, todo: set<Bytes>, specific: Bytes)
    requires VisitedCells(c, visited, todo, specific, {})
    ensures VisitedRows(c, visited, todo - {specific})
  {
  }

  /** `c` with the cells in `visited` set to 0.0. */
  function Reset(c: Cells, visited: set<(Bytes, Bytes)>): Cells {
    map sp | sp in c :: map st | st in c[sp] :: if (sp, st) in visited then 0.0 else c[sp][st]
  }

  lemma ResetNone(c: Cells)
    ensures Reset(c, {}) == c
  {
    forall sp | sp in c ensures Reset(c, {})[sp] == c[sp] {
    }
  }

  lemma ResetStep(c: Cells, visited: set<(Bytes, Bytes)>, specific: Bytes, stat: Bytes)
    requires Has(c, specific, stat)
    ensures var r := Reset(c, visited);
            Reset(c, visited + {(specific, stat)}) == r[specific := r[specific][stat := 0.0]]
  {
    var r := Reset(c, visited);
    var r' := Reset(c, visited + {(specific, stat)});
    assert r'[specific] == r[specific][stat := 0.0];
    forall sp | sp in c && sp != specific ensures r'[sp] == r[sp] {
    }
  }

  lemma ResetAll(c: Cells, visited: set<(Bytes, Bytes)>)
    requires VisitedRows(c, visited, {})
    ensures Reset(c, visited) == Zeroed(c)
  {
    forall sp | sp in c ensures Reset(c, visited)[sp] == Zeroed(c)[sp] {
      assert forall st :: st in c[sp] ==> (sp, st) in visited;
    }
  }

  /** What `Snapshot` has reported after visiting the cells in `visited`. */
  ghost predicate Reported(naming: (Bytes, Bytes) -> Bytes, c: Cells, visited: set<(Bytes, Bytes)>,
                           totals: map<Bytes, real>, from: map<Bytes, (Bytes, Bytes)>) {
    && (forall cell :: cell in visited ==> naming(cell.0, cell.1) in totals)
    && Witnessed(c, totals, from)
    && (forall name :: name in from ==> naming(from[name].0, from[name].1) == name)
  }

  lemma ReportStep(naming: (Bytes, Bytes) -> Bytes, c: Cells, visited: set<(Bytes, Bytes)>, totals: map<Bytes, real>,
                   from: map<Bytes, (Bytes, Bytes)>, specific: Bytes, stat: Bytes)
    requires Reported(naming, c, visited, totals, from) && Has(c, specific, stat)
    ensures var name := naming(specific, stat);
            Reported(naming, c, visited + {(specific, stat)}, totals[name := c[specific][stat]],
                     from[name := (specific, stat)])
  {
  }

  /** The bookkeeping of `Snapshot`: each reported name remembers the cell
      whose value it holds. */
  ghost predicate Witnessed(c: Cells, totals: map<Bytes, real>, from: map<Bytes, (Bytes, Bytes)>) {
    forall name :: name in totals ==>
      && name in from && Has(c, from[name].0, from[name].1)
      && totals[name] == c[from[name].0][from[name].1]
  }

  lemma WitnessedSnapshot(naming: (Bytes, Bytes) -> Bytes, c: Cells, visited: set<(Bytes, Bytes)>,
                           totals: map<Bytes, real>, from: map<Bytes, (Bytes, Bytes)>)
    requires Reported(naming, c, visited, totals, from)
    requires VisitedRows(c, visited, {})
    ensures NamedBy(naming, c, totals)
  {
    forall sp, st | Has(c, sp, st) ensures naming(sp, st) in totals {
      assert (sp, st) in visited;
    }
    forall name | name in totals
      ensures exists sp, st :: Has(c, sp, st) && naming(sp, st) == name && totals[name] == c[sp][st]
    {
      var cell := from[name];
      assert Has(c, cell.0, cell.1) && naming(cell.0, cell.1) == name;
    }
  }

  lemma KeysCons(stats: Stats)
    requires stats != []
    ensures Keys(stats) == {stats[0].0} + Keys(stats[1..])
  {
    var rest := stats[1..];
    forall k | k in Keys(stats) ensures k in {stats[0].0} + Keys(rest) {
      var i :| 0 <= i < |stats| && stats[i].0 == k;
      if i > 0 {
        assert rest[i - 1].0 == k;
      }
    }
    forall k | k in Keys(rest) ensures k in Keys(stats) {
      var i :| 0 <= i < |rest| && rest[i].0 == k;
      assert stats[i + 1].0 == k;
    }
  }

  lemma NumbersTail(stats: Stats)
    requires stats != [] && AllNumbers(stats)
    ensures AllNumbers(stats[1..])
  {
    forall i | 0 <= i < |stats| - 1 ensures IsNumber(stats[1..][i].1) {
      assert stats[1..][i] == stats[i + 1];
    }
  }

  /** With valid values, the inner loop of `record` adds, for each stat, the
      sum of the values given for it to the cell of `specific`, creating the
      cells it needs and touching no other row. */
  lemma AddStatsSum(c: Cells, specific: Bytes, stats: Stats)
    requires AllNumbers(stats)
    ensures var r := AddStats(c, specific, stats);
            && r.1 == Done
            && (forall sp, st :: Has(r.0, sp, st) <==> Has(c, sp, st) || (sp == specific && st in Keys(stats)))
            && (forall sp, st :: Get(r.0, sp, st) == Get(c, sp, st) + if sp == specific then Total(stats, st) else 0.0)
  {
    AddStatsDone(c, specific, stats);
    AddStatsHas(c, specific, stats);
    AddStatsGet(c, specific, stats);
  }

  lemma {:induction false} AddStatsDone(c: Cells, specific: Bytes, stats: Stats)
    requires AllNumbers(stats)
    ensures AddStats(c, specific, stats).1 == Done
    decreases |stats|
  {
    if stats != [] {
      var stat := stats[0].0;
      NumbersTail(stats);
      AddStatsDone(Put(c, specific, stat, Get(c, specific, stat) + AsReal(stats[0].1)), specific, stats[1..]);
    }
  }

  lemma {:induction false} AddStatsHas(c: Cells, specific: Bytes, stats: Stats)
    requires AllNumbers(stats)
    ensures var r := AddStats(c, specific, stats);
            forall sp, st :: Has(r.0, sp, st) <==> Has(c, sp, st) || (sp == specific && st in Keys(stats))
    decreases |stats|
  {
    if stats == [] {
      assert Keys(stats) == {};
    } else {
      var stat := stats[0].0;
      var rest := stats[1..];
      var c1 := Put(c, specific, stat, Get(c, specific, stat) + AsReal(stats[0].1));
      NumbersTail(stats);
      AddStatsHas(c1, specific, rest);
      KeysCons(stats);
      var r := AddStats(c, specific, stats);
      assert r == AddStats(c1, specific, rest);
      forall sp, st ensures Has(r.0, sp, st) <==> Has(c, sp, st) || (sp == specific && st in Keys(stats)) {
        assert Has(c1, sp, st) <==> Has(c, sp, st) || (sp == specific && st == stat);
      }
    }
  }

  lemma {:induction false} AddStatsGet(c: Cells, specific: Bytes, stats: Stats)
    requires AllNumbers(stats)
    ensures var r := AddStats(c, specific, stats);
            forall sp, st :: Get(r.0, sp, st) == Get(c, sp, st) + if sp == specific then Total(stats, st) else 0.0
    decreases |stats|
  {
    if stats != [] {
      var stat := stats[0].0;
      var rest := stats[1..];
      var c1 := Put(c, specific, stat, Get(c, specific, stat) + AsReal(stats[0].1));
      NumbersTail(stats);
      AddStatsGet(c1, specific, rest);
      var r := AddStats(c, specific, stats);
      assert r == AddStats(c1, specific, rest);
      forall sp, st ensures Get(r.0, sp, st) == Get(c, sp, st) + if sp == specific then Total(stats, st) else 0.0 {
        assert Total(stats, st) == (if stat == st then AsReal(stats[0].1) else 0.0) + Total(rest, st);
        assert Get(c1, sp, st) == Get(c, sp, st) + if sp == specific && st == stat then AsReal(stats[0].1) else 0.0;
      }
    }
  }

  /** The inner loop of `record` stops at the first value that is not a
      number, keeping the additions before it. */
  lemma {:induction false} AddStatsStops(c: Cells, specific: Bytes, stats: Stats, k: nat)
    requires k < |stats| && AllNumbers(stats[..k]) && !IsNumber(stats[k].1)
    ensures AddStats(c, specific, stats) == (AddStats(c, specific, stats[..k]).0, Raised(AssertionError))
    decreases k
  {
    if k > 0 {
      var stat := stats[0].0;
      var c1 := Put(c, specific, stat, Get(c, specific, stat) + AsReal(stats[0].1));
      PrefixTail(stats, k);
      NumbersShift(stats, k);
      AddStatsStops(c1, specific, stats[1..], k - 1);
    } else {
      assert stats[..k] == [];
    }
  }

  /** The first `k` elements, less the first, are the first `k - 1` of the tail. */
  lemma PrefixTail<T>(s: seq<T>, k: nat)
    requires 0 < k <= |s|
    ensures s[..k][0] == s[0] && s[..k][1..] == s[1..][..k - 1]
  {
  }

  lemma NumbersShift(stats: Stats, k: nat)
    requires 0 < k <= |stats| && AllNumbers(stats[..k])
    ensures AllNumbers(stats[1..][..k - 1])
  {
    var tail := stats[1..][..k - 1];
    forall i | 0 <= i < |tail| ensures IsNumber(tail[i].1) {
      assert tail[i] == stats[..k][i + 1];
    }
  }

  lemma StringsShift(specifics: seq<Py>, k: nat)
    requires 0 < k <= |specifics| && AllStrings(specifics[..k])
    ensures AllStrings(specifics[1..][..k - 1])
  {
    var tail := specifics[1..][..k - 1];
    forall i | 0 <= i < |tail| ensures tail[i].PyStr? {
      assert tail[i] == specifics[..k][i + 1];
    }
  }

  lemma StringsTail(specifics: seq<Py>)
    requires specifics != [] && AllStrings(specifics)
    ensures AllStrings(specifics[1..])
  {
    forall i | 0 <= i < |specifics| - 1 ensures specifics[1..][i].PyStr? {
      assert specifics[1..][i] == specifics[i + 1];
    }
  }

  /** With valid arguments, `record` adds to the cell (specific, stat) the sum
      of the values given for `stat`, once for every time `specific` is
      listed, and creates exactly the cells of the listed specifics and the
      given stats. */
  lemma {:induction false} RecordedSum(c: Cells, specifics: seq<Py>, stats: Stats)
    requires AllStrings(specifics) && AllNumbers(stats)
    ensures var r := Recorded(c, specifics, stats);
            && r.1 == Done
            && (forall sp, st :: Has(r.0, sp, st) <==> Has(c, sp, st) || (PyStr(sp) in specifics && st in Keys(stats)))
            && (forall sp, st :: Get(r.0, sp, st) == Get(c, sp, st) + Times(Occurrences(specifics, sp), Total(stats, st)))
    decreases |specifics|
  {
    if specifics != [] {
      var first := specifics[0].s;
      var rest := specifics[1..];
      AddStatsSum(c, first, stats);
      var c1 := AddStats(c, first, stats).0;
      StringsTail(specifics);
      RecordedSum(c1, rest, stats);
      var r := Recorded(c, specifics, stats);
      assert r == Recorded(c1, rest, stats);
      forall sp, st ensures Get(r.0, sp, st) == Get(c, sp, st) + Times(Occurrences(specifics, sp), Total(stats, st)) {
        var m := Occurrences(rest, sp);
        var t := Total(stats, st);
        assert Get(r.0, sp, st) == Get(c1, sp, st) + Times(m, t);
        assert Get(c1, sp, st) == Get(c, sp, st) + if sp == first then t else 0.0;
        if sp == first {
          assert Occurrences(specifics, sp) == m + 1;
        } else {
          assert Occurrences(specifics, sp) == m;
        }
      }
      forall sp, st ensures Has(r.0, sp, st) <==> Has(c, sp, st) || (PyStr(sp) in specifics && st in Keys(stats)) {
        assert PyStr(sp) in specifics <==> sp == first || PyStr(sp) in rest;
      }
    }
  }

  /** `t` added `n` times. */
  function Times(n: nat, t: real): (r: real)
    ensures r == n as real * t
  {
    if n == 0 then 0.0 else t + Times(n - 1, t)
  }

  /** `record` stops at the first specific that is not a string, keeping what
      the specifics before it added. */
  lemma {:induction false} RecordedStopsAtSpecific(c: Cells, specifics: seq<Py>, stats: Stats, k: nat)
    requires k < |specifics| && AllStrings(specifics[..k]) && !specifics[k].PyStr? && AllNumbers(stats)
    ensures Recorded(c, specifics, stats) == (Recorded(c, specifics[..k], stats).0, Raised(AssertionError))
    decreases k
  {
    if k > 0 {
      assert specifics[..k][0] == specifics[0];
      AddStatsSum(c, specifics[0].s, stats);
      var c1 := AddStats(c, specifics[0].s, stats).0;
      assert specifics[..k][1..] == specifics[1..][..k - 1];
      StringsShift(specifics, k);
      RecordedStopsAtSpecific(c1, specifics[1..], stats, k - 1);
    }
  }

  /** A value that is not a number stops `record` during its first specific:
      only the values before it reach that one row. */
  lemma RecordedStopsAtValue(c: Cells, specifics: seq<Py>, stats: Stats, k: nat)
    requires specifics != [] && specifics[0].PyStr?
    requires k < |stats| && AllNumbers(stats[..k]) && !IsNumber(stats[k].1)
    ensures Recorded(c, specifics, stats) == (AddStats(c, specifics[0].s, stats[..k]).0, Raised(AssertionError))
  {
    AddStatsStops(c, specifics[0].s, stats, k);
  }

  /** Without stats, `record` changes nothing. */
  lemma {:induction false} RecordedNothing(c: Cells, specifics: seq<Py>)
    ensures Recorded(c, specifics, []).0 == c
    decreases |specifics|
  {
    if specifics != [] && specifics[0].PyStr? {
      assert AddStats(c, specifics[0].s, []) == (c, Done);
      RecordedNothing(c, specifics[1..]);
    }
  }

  /** With valid values, `set_exact` leaves in each cell of the empty specific
      the last value given for its stat, and touches nothing else. */
  lemma {:induction false} SetAllLast(c: Cells, stats: Stats)
    requires AllNumbers(stats)
    ensures var r := SetAll(c, stats);
            && r.1 == Done
            && (forall sp, st :: Has(r.0, sp, st) <==> Has(c, sp, st) || (sp == "" && st in Keys(stats)))
            && (forall sp, st :: Get(r.0, sp, st) ==
                  if sp == "" && st in Keys(stats) then Last(stats, st) else Get(c, sp, st))
    decreases |stats|
  {
    if stats == [] {
      assert Keys(stats) == {};
    } else {
      var rest := stats[1..];
      var c1 := Put(c, "", stats[0].0, AsReal(stats[0].1));
      NumbersTail(stats);
      SetAllLast(c1, rest);
      KeysCons(stats);
    }
  }

  /** `set_exact` stops at the first value that is not a number, keeping the
      values stored before it. */
  lemma {:induction false} SetAllStops(c: Cells, stats: Stats, k: nat)
    requires k < |stats| && AllNumbers(stats[..k]) && !IsNumber(stats[k].1)
    ensures SetAll(c, stats) == (SetAll(c, stats[..k]).0, Raised(AssertionError))
    decreases k
  {
    if k > 0 {
      var c1 := Put(c, "", stats[0].0, AsReal(stats[0].1));
      PrefixTail(stats, k);
      NumbersShift(stats, k);
      SetAllStops(c1, stats[1..], k - 1);
    }
  }

  /** The names a snapshot of `c` reports. */
  function Names(category: Bytes, c: Cells): set<Bytes> {
    set sp, st | sp in c && st in c[sp] :: DerivedName(category, sp, st)
  }

  /** No two cells of `c` are reported under the same name. */
  ghost predicate NoCollisions(category: Bytes, c: Cells) {
    forall sp1, st1, sp2, st2 :: Has(c, sp1, st1) && Has(c, sp2, st2) && (sp1, st1) != (sp2, st2) ==>
      DerivedName(category, sp1, st1) != DerivedName(category, sp2, st2)
  }

  /** A snapshot reports exactly the derived names of the cells. */
  lemma SnapshotNames(category: Bytes, c: Cells, totals: map<Bytes, real>)
    requires IsSnapshot(category, c, totals)
    ensures totals.Keys == Names(category, c)
  {
    forall name | name in totals ensures name in Names(category, c) {
      var sp, st :| Has(c, sp, st) && Naming(category)(sp, st) == name && totals[name] == c[sp][st];
    }
    forall name | name in Names(category, c) ensures name in totals {
      var sp, st :| sp in c && st in c[sp] && DerivedName(category, sp, st) == name;
      assert Naming(category)(sp, st) == name;
    }
  }

  /** Without collisions, each cell's value is reported under its name, so
      the snapshot is the same in every visiting order. */
  lemma SnapshotValues(category: Bytes, c: Cells, totals: map<Bytes, real>)
    requires IsSnapshot(category, c, totals) && NoCollisions(category, c)
    ensures forall sp, st :: Has(c, sp, st) ==> totals[DerivedName(category, sp, st)] == c[sp][st]
  {
    forall sp, st | Has(c, sp, st) ensures totals[DerivedName(category, sp, st)] == c[sp][st] {
      var name := DerivedName(category, sp, st);
      assert Naming(category)(sp, st) == name;
      var sp', st' :| Has(c, sp', st') && Naming(category)(sp', st') == name && totals[name] == c[sp'][st'];
    }
  }

  lemma SnapshotDeterministic(category: Bytes, c: Cells, t1: map<Bytes, real>, t2: map<Bytes, real>)
    requires IsSnapshot(category, c, t1) && IsSnapshot(category, c, t2) && NoCollisions(category, c)
    ensures t1 == t2
  {
    SnapshotNames(category, c, t1);
    SnapshotNames(category, c, t2);
    SnapshotValues(category, c, t1);
    SnapshotValues(category, c, t2);
    forall name | name in t1 ensures t1[name] == t2[name] {
      var sp, st :| sp in c && st in c[sp] && DerivedName(category, sp, st) == name;
    }
  }

  /** A snapshot taken right after another reports the same names, all with
      value 0.0. */
  lemma SnapshotAgain(category: Bytes, c: Cells, totals: map<Bytes, real>)
    requires IsSnapshot(category, Zeroed(c), totals)
    ensures totals.Keys == Names(category, c)
    ensures forall name :: name in totals ==> totals[name] == 0.0
  {
    SnapshotNames(category, Zeroed(c), totals);
    assert Names(category, Zeroed(c)) == Names(category, c) by {
      forall name | name in Names(category, c) ensures name in Names(category, Zeroed(c)) {
        var sp, st :| sp in c && st in c[sp] && DerivedName(category, sp, st) == name;
        assert Has(Zeroed(c), sp, st);
      }
      forall name | name in Names(category, Zeroed(c)) ensures name in Names(category, c) {
        var sp, st :| sp in Zeroed(c) && st in Zeroed(c)[sp] && DerivedName(category, sp, st) == name;
        assert Has(c, sp, st);
      }
    }
    forall name | name in totals ensures totals[name] == 0.0 {
      var sp, st :| Has(Zeroed(c), sp, st) && Naming(category)(sp, st) == name && totals[name] == Zeroed(c)[sp][st];
      assert Get(Zeroed(c), sp, st) == 0.0;
    }
  }

  /** A counter without cells has an empty snapshot. */
  lemma SnapshotEmpty(category: Bytes, totals: map<Bytes, real>)
    requires IsSnapshot(category, map[], totals)
    ensures totals == map[]
  {
    SnapshotNames(category, map[], totals);
  }

  /** No character of `s` is a dash. */
  predicate NoDash(s: Bytes) {
    forall i :: 0 <= i < |s| ==> s[i] != '-'
  }

  lemma {:induction false} UndoublePlain(x: Bytes, rest: Bytes)
    requires NoDash(x)
    ensures Undouble(x + rest) == x + Undouble(rest)
  {
    if x != [] {
      assert (x + rest)[0] == x[0] && (x + rest)[1..] == x[1..] + rest;
      UndoublePlain(x[1..], rest);
      assert [x[0]] + (x[1..] + Undouble(rest)) == x + Undouble(rest);
    } else {
      assert x + rest == rest;
    }
  }

  lemma CleanNoDash(s: Bytes)
    requires Clean(s)
    ensures NoDash(s)
  {
    forall i | 0 <= i < |s| ensures s[i] != '-' {
      assert IsAlnum(s[i]) || s[i] == '_';
    }
  }

  /** The name of a cell is the sanitised category, specific and stat joined
      by dashes, the specific and its dash left out when it sanitises to the
      empty string. */
  lemma NameParts(category: Bytes, specific: Bytes, stat: Bytes)
    ensures var a, b, d := Sanitize(category), Sanitize(specific), Sanitize(stat);
            DerivedName(category, specific, stat) == a + "-" + (if b == [] then [] else b + "-") + d
  {
    SanitizeClean(category);
    SanitizeClean(specific);
    SanitizeClean(stat);
    CleanNoDash(Sanitize(category));
    CleanNoDash(Sanitize(specific));
    CleanNoDash(Sanitize(stat));
    UndoubleJoin(Sanitize(category), Sanitize(specific), Sanitize(stat));
  }

  /** Between dash-free parts, `replace("--", "-")` only merges the two
      dashes around an empty middle part. */
  lemma UndoubleJoin(a: Bytes, b: Bytes, d: Bytes)
    requires NoDash(a) && NoDash(b) && NoDash(d)
    ensures Undouble(a + "-" + b + "-" + d) == a + "-" + (if b == [] then [] else b + "-") + d
  {
    UndoublePlain(d, []);
    assert d + [] == d;
    if b == [] {
      EmptyMiddle(a, d);
    } else {
      FullMiddle(a, b, d);
    }
  }

  lemma EmptyMiddle(a: Bytes, d: Bytes)
    requires NoDash(a) && Undouble(d) == d
    ensures Undouble(a + "-" + [] + "-" + d) == a + "-" + [] + d
  {
    JoinDashes(a, d);
    UndoublePlain(a, "--" + d);
    DoubleDash(d);
    JoinEmpty(a, d);
  }

  lemma FullMiddle(a: Bytes, b: Bytes, d: Bytes)
    requires NoDash(a) && NoDash(b) && b != [] && NoDash(d) && Undouble(d) == d
    ensures Undouble(a + "-" + b + "-" + d) == a + "-" + (b + "-") + d
  {
    var tail := "-" + d;
    var mid := "-" + (b + tail);
    JoinRight(a, b, d);
    UndoublePlain(a, mid);
    DashPlain(b, tail);
    DashLead(d);
    JoinMiddle(a, b, d);
  }

  /** Two dashes around an empty middle part. */
  lemma JoinDashes(a: Bytes, d: Bytes)
    ensures a + "-" + [] + "-" + d == a + ("--" + d)
  {
  }

  /** With an empty middle part, `a-` is followed by `d`. */
  lemma JoinEmpty(a: Bytes, d: Bytes)
    ensures a + "-" + [] + d == a + "-" + d == a + ("-" + d)
  {
  }

  /** `replace("--", "-")` merges a leading pair of dashes. */
  lemma DoubleDash(d: Bytes)
    ensures Undouble("--" + d) == "-" + Undouble(d)
  {
    var t := "--" + d;
    assert t[2..] == d;
  }

  /** Regrouping `a-b-d` to the right. */
  lemma JoinRight(a: Bytes, b: Bytes, d: Bytes)
    ensures a + "-" + b + "-" + d == a + ("-" + (b + ("-" + d)))
  {
  }

  /** Regrouping `a-b-d` around `b-`. */
  lemma JoinMiddle(a: Bytes, b: Bytes, d: Bytes)
    ensures a + ("-" + (b + ("-" + d))) == a + "-" + (b + "-") + d
  {
  }

  /** A dash before a dash-free, non-empty part is kept. */
  lemma DashPlain(x: Bytes, rest: Bytes)
    requires NoDash(x) && x != []
    ensures Undouble("-" + (x + rest)) == "-" + (x + Undouble(rest))
  {
    assert (x + rest)[0] == x[0];
    DashLead(x + rest);
    UndoublePlain(x, rest);
  }

  lemma DashLead(x: Bytes)
    requires x == [] || x[0] != '-'
    ensures Undouble("-" + x) == "-" + Undouble(x)
  {
    var t := "-" + x;
    assert t[1..] == x;
    if x != [] {
      assert t[1] == x[0];
    }
  }
}
