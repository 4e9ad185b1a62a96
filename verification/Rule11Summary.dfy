/** The summary of a Rule 11 evaluation: counters, and tables of the same counters by label. */
module Rule11Summary {
  import opened Text
  import opened Rule11

  datatype Slice = Slice(
    total: int, correct: int, grantCorrect: int, falseGrants: int, falseDenials: int, sanctionMismatches: int,
    invalid: int)

  const ZERO := Slice(0, 0, 0, 0, 0, 0, 0)

  function Plus(a: Slice, b: Slice): Slice {
    Slice(a.total + b.total, a.correct + b.correct, a.grantCorrect + b.grantCorrect, a.falseGrants + b.falseGrants,
          a.falseDenials + b.falseDenials, a.sanctionMismatches + b.sanctionMismatches, a.invalid + b.invalid)
  }

  function Bit(b: bool): nat {
    if b then 1 else 0
  }

  /** The classes that results fall into; Unclassed is for results that err without a wrong ruling. */
  datatype Class = Invalid | Correct | SanctionMismatch | FalseGrant | FalseDenial | Unclassed

  function ClassOf(r: Result): Class {
    if r.problem != NoProblem then Invalid
    else if r.score.outcomeCorrect then Correct
    else if r.score.grantCorrect && !r.score.sanctionCorrect then SanctionMismatch
    else if r.ruling.granted.Some? && r.ruling.granted.value && !r.expected.granted then FalseGrant
    else if r.ruling.granted.Some? && !r.ruling.granted.value && r.expected.granted then FalseDenial
    else Unclassed
  }

  /** What one result adds. */
  function One(r: Result): Slice {
    var c := ClassOf(r);
    Slice(1, Bit(c == Correct), Bit(r.problem == NoProblem && r.score.grantCorrect), Bit(c == FalseGrant),
          Bit(c == FalseDenial), Bit(c == SanctionMismatch), Bit(c == Invalid))
  }

  /** What each result adds, as a function value. */
  type Worth = Result -> Slice

  const ONE: Worth := (r: Result) => One(r)

  function Sum<A>(items: seq<A>, worth: A -> Slice): Slice {
    if items == [] then ZERO else Plus(Sum(items[..|items| - 1], worth), worth(items[|items| - 1]))
  }

  type Table = map<string, Slice>

  function TableKey(key: string): string {
    if Trim(key) == "" then "unspecified" else Trim(key)
  }

  function Counted(table: Table, key: string, one: Slice): Table {
    table[key := Plus(if key in table then table[key] else ZERO, one)]
  }

  /** The table after counting one result under each of its tags. */
  function TagsCounted(table: Table, tags: seq<string>, one: Slice): Table {
    if tags == [] then table
    else Counted(TagsCounted(table, tags[..|tags| - 1], one), TableKey(tags[|tags| - 1]), one)
  }

  /** The table of all items under one label each. */
  function TableOf<A>(items: seq<A>, keyOf: A -> string, worth: A -> Slice): Table {
    if items == [] then map[]
    else
      var last := items[|items| - 1];
      Counted(TableOf(items[..|items| - 1], keyOf, worth), keyOf(last), worth(last))
  }

  /** A result under one of its reason tags. */
  datatype Tagged = Tagged(tag: string, result: Result)

  function UnderTags(r: Result, tags: seq<string>): seq<Tagged> {
    if tags == [] then [] else UnderTags(r, tags[..|tags| - 1]) + [Tagged(tags[|tags| - 1], r)]
  }

  /** Every result once under each of its tags. */
  function AllTagged(results: seq<Result>): seq<Tagged> {
    if results == [] then []
    else
      var last := results[|results| - 1];
      AllTagged(results[..|results| - 1]) + UnderTags(last, last.expected.reasonTags)
  }

  const TAG_KEY: Tagged -> string := (t: Tagged) => TableKey(t.tag)

  function TaggedWorth(worth: Worth): Tagged -> Slice {
    (t: Tagged) => worth(t.result)
  }

  /** The table by reason tags, in which a result stands under none, one or several labels. */
  function TagTable(results: seq<Result>, worth: Worth): Table {
    TableOf(AllTagged(results), TAG_KEY, TaggedWorth(worth))
  }

  function ReasonsCorrect(results: seq<Result>): nat {
    if results == [] then 0
    else ReasonsCorrect(results[..|results| - 1]) + Bit(results[|results| - 1].score.reasonCorrect)
  }

  // ----- the summary object -----

  /** The labels of a result, as the tables have them. */
  datatype Keys = Keys(
    family: Result -> string, tier: Result -> string, movant: Result -> string, sanction: Result -> string)

  const KEYS := Keys(
    (r: Result) => TableKey(r.labels.issueFamily),
    (r: Result) => TableKey("tier_" + Itoa(r.labels.tier)),
    (r: Result) => TableKey(r.labels.movant),
    (r: Result) => TableKey(r.expected.sanctionType))

  /** classifyJudgeRule11Error, on two counters. */
  method ClassifyError(r: Result, falseGrants: int, falseDenials: int) returns (grants: int, denials: int)
    ensures grants == falseGrants + Bit(r.ruling.granted.Some? && r.ruling.granted.value && !r.expected.granted)
    ensures denials == falseDenials + Bit(r.ruling.granted.Some? && !r.ruling.granted.value && r.expected.granted)
  {
    grants, denials := falseGrants, falseDenials;
    if r.ruling.granted.None? {
      return;
    }
    if r.ruling.granted.value && !r.expected.granted {
      grants := grants + 1;
    }
    if !r.ruling.granted.value && r.expected.granted {
      denials := denials + 1;
    }
  }

  /** The counting that the summary and each of its slices do. */
  method CountSlice(slice: Slice, r: Result) returns (s: Slice)
    ensures s == Plus(slice, One(r))
  {
    s := slice.(total := slice.total + 1);
    if r.problem != NoProblem {
      s := s.(invalid := s.invalid + 1);
    } else {
      if r.score.grantCorrect {
        s := s.(grantCorrect := s.grantCorrect + 1);
      }
      if r.score.outcomeCorrect {
        s := s.(correct := s.correct + 1);
      } else if r.score.grantCorrect && !r.score.sanctionCorrect {
        s := s.(sanctionMismatches := s.sanctionMismatches + 1);
      } else {
        var grants, denials := ClassifyError(r, s.falseGrants, s.falseDenials);
        s := s.(falseGrants := grants, falseDenials := denials);
      }
    }
  }

  method UpdateSlice(table: Table, key: string, r: Result) returns (updated: Table)
    ensures updated == Counted(table, key, One(r))
  {
    var before := if key in table then table[key] else ZERO;
    var s := CountSlice(before, r);
    SliceCounted(table, key, before, s, One(r));
    updated := table[key := s];
  }

  lemma SliceCounted(table: Table, key: string, before: Slice, s: Slice, one: Slice)
    requires before == (if key in table then table[key] else ZERO) && s == Plus(before, one)
    ensures table[key := s] == Counted(table, key, one)
  {
  }

  /** The tables in which every result has exactly one label. */
  datatype Tables = Tables(byIssueFamily: Table, byTier: Table, byMovant: Table, byExpectedSanction: Table)

  const NO_TABLES := Tables(map[], map[], map[], map[])

  function TablesAfter(t: Tables, keys: Keys, r: Result, one: Slice): Tables {
    Tables(Counted(t.byIssueFamily, keys.family(r), one), Counted(t.byTier, keys.tier(r), one),
           Counted(t.byMovant, keys.movant(r), one), Counted(t.byExpectedSanction, keys.sanction(r), one))
  }

  method UpdateTables(t: Tables, keys: Keys, r: Result) returns (updated: Tables)
    ensures updated == TablesAfter(t, keys, r, One(r))
  {
    var family := UpdateSlice(t.byIssueFamily, keys.family(r), r);
    var tier := UpdateSlice(t.byTier, keys.tier(r), r);
    var movant := UpdateSlice(t.byMovant, keys.movant(r), r);
    var sanction := UpdateSlice(t.byExpectedSanction, keys.sanction(r), r);
    updated := Tables(family, tier, movant, sanction);
  }

  function TablesOf(results: seq<Result>, keys: Keys, worth: Worth): Tables {
    Tables(TableOf(results, keys.family, worth), TableOf(results, keys.tier, worth),
           TableOf(results, keys.movant, worth), TableOf(results, keys.sanction, worth))
  }

  lemma TableNext<A>(items: seq<A>, i: nat, keyOf: A -> string, worth: A -> Slice)
    requires i < |items|
    ensures
      TableOf(items[..i + 1], keyOf, worth)
      == Counted(TableOf(items[..i], keyOf, worth), keyOf(items[i]), worth(items[i]))
  {
    assert items[..i + 1][..i] == items[..i];
  }

  lemma {:induction false} TagsNext(before: seq<Tagged>, r: Result, tags: seq<string>, worth: Worth)
    ensures
      TableOf(before + UnderTags(r, tags), TAG_KEY, TaggedWorth(worth))
      == TagsCounted(TableOf(before, TAG_KEY, TaggedWorth(worth)), tags, worth(r))
  {
    if tags == [] {
      assert before + [] == before;
    } else {
      var front, last := tags[..|tags| - 1], Tagged(tags[|tags| - 1], r);
      TagsNext(before, r, front, worth);
      Assoc(before, UnderTags(r, front), [last]);
      TableLast(before + UnderTags(r, front), last, TAG_KEY, TaggedWorth(worth));
    }
  }

  lemma TableLast<A>(items: seq<A>, last: A, keyOf: A -> string, worth: A -> Slice)
    ensures TableOf(items + [last], keyOf, worth) == Counted(TableOf(items, keyOf, worth), keyOf(last), worth(last))
  {
    assert (items + [last])[..|items|] == items;
  }

  lemma ReasonsNext(results: seq<Result>, i: nat, worth: Worth)
    requires i < |results|
    ensures
      TagTable(results[..i + 1], worth)
      == TagsCounted(TagTable(results[..i], worth), results[i].expected.reasonTags, worth(results[i]))
    ensures ReasonsCorrect(results[..i + 1]) == ReasonsCorrect(results[..i]) + Bit(results[i].score.reasonCorrect)
  {
    assert results[..i + 1][..i] == results[..i];
    TagsNext(AllTagged(results[..i]), results[i], results[i].expected.reasonTags, worth);
  }

  lemma SummaryNext(results: seq<Result>, i: nat, keys: Keys, worth: Worth)
    requires i < |results|
    ensures
      TablesOf(results[..i + 1], keys, worth)
      == TablesAfter(TablesOf(results[..i], keys, worth), keys, results[i], worth(results[i]))
    ensures Sum(results[..i + 1], worth) == Plus(Sum(results[..i], worth), worth(results[i]))
  {
    TableNext(results, i, keys.family, worth);
    TableNext(results, i, keys.tier, worth);
    TableNext(results, i, keys.movant, worth);
    TableNext(results, i, keys.sanction, worth);
    assert results[..i + 1][..i] == results[..i];
  }

  class Summary {
    var counters: Slice
    var reasonCorrect: nat
    var byReasonTag: Table
    var tables: Tables
    const keys: Keys

    constructor (keys: Keys)
      ensures this.keys == keys
      ensures counters == ZERO && reasonCorrect == 0 && byReasonTag == map[] && tables == NO_TABLES
    {
      counters, reasonCorrect, byReasonTag, tables, this.keys := ZERO, 0, map[], NO_TABLES, keys;
    }

    method CountTags(r: Result)
      modifies this`byReasonTag
      ensures byReasonTag == TagsCounted(old(byReasonTag), r.expected.reasonTags, One(r))
    {
      for i := 0 to |r.expected.reasonTags|
        invariant byReasonTag == TagsCounted(old(byReasonTag), r.expected.reasonTags[..i], One(r))
      {
        assert r.expected.reasonTags[..i + 1][..i] == r.expected.reasonTags[..i];
        byReasonTag := UpdateSlice(byReasonTag, TableKey(r.expected.reasonTags[i]), r);
      }
      assert r.expected.reasonTags[..|r.expected.reasonTags|] == r.expected.reasonTags;
    }

    /** applyJudgeRule11SummaryResult */
    method ApplyResult(r: Result)
      modifies this
      ensures counters == Plus(old(counters), One(r))
      ensures tables == TablesAfter(old(tables), keys, r, One(r))
      ensures reasonCorrect == old(reasonCorrect) + Bit(r.score.reasonCorrect)
      ensures byReasonTag == TagsCounted(old(byReasonTag), r.expected.reasonTags, One(r))
    {
      var newCounters := CountSlice(counters, r);
      var newTables := UpdateTables(tables, keys, r);
      counters, tables := newCounters, newTables;
      if r.score.reasonCorrect {
        reasonCorrect := reasonCorrect + 1;
      }
      CountTags(r);
    }

    /** The object holds the sums over these results. */
    ghost predicate Summarizes(results: seq<Result>, worth: Worth)
      reads this
    {
      && counters == Sum(results, worth) && tables == TablesOf(results, keys, worth)
      && reasonCorrect == ReasonsCorrect(results) && byReasonTag == TagTable(results, worth)
    }

    method Apply(results: seq<Result>, ghost worth: Worth)
      requires Summarizes([], worth) && forall r :: worth(r) == One(r)
      modifies this
      ensures Summarizes(results, worth)
    {
      for i := 0 to |results|
        invariant Summarizes(results[..i], worth)
      {
        SummaryNext(results, i, keys, worth);
        ReasonsNext(results, i, worth);
        ApplyResult(results[i]);
      }
      assert results[..|results|] == results;
    }
  }

  /** The loop over all results, from an empty summary on. */
  method Summarize(results: seq<Result>) returns (summary: Summary)
    ensures fresh(summary) && summary.Summarizes(results, ONE) && summary.keys == KEYS
  {
    summary := new Summary(KEYS);
    summary.Apply(results, ONE);
  }

  // ----- conservation -----

  /** No problem and not correct, yet no mismatch, and no ruling or just the expected one. */
  predicate IsLost(r: Result) {
    && r.problem == NoProblem && !r.score.outcomeCorrect && !(r.score.grantCorrect && !r.score.sanctionCorrect)
    && (r.ruling.granted.None? || r.ruling.granted.value == r.expected.granted)
  }

  function Classes(s: Slice): int {
    s.correct + s.sanctionMismatches + s.falseGrants + s.falseDenials + s.invalid
  }

  /** How many results are in none of the five classes. */
  function Lost(results: seq<Result>, lost: Result -> bool): nat {
    if results == [] then 0 else Lost(results[..|results| - 1], lost) + Bit(lost(results[|results| - 1]))
  }

  lemma {:induction false} NoneLost(results: seq<Result>, lost: Result -> bool)
    ensures Lost(results, lost) == 0 <==> forall k :: 0 <= k < |results| ==> !lost(results[k])
  {
    if results != [] {
      var front := results[..|results| - 1];
      NoneLost(front, lost);
      assert forall k :: 0 <= k < |front| ==> front[k] == results[k];
    }
  }

  lemma LostIsUnclassed(r: Result)
    ensures IsLost(r) <==> ClassOf(r) == Unclassed
  {
  }

  lemma OneIsClassed(r: Result)
    ensures One(r).total == Classes(One(r)) + Bit(ClassOf(r) == Unclassed) == 1
  {
    match ClassOf(r)
    case Invalid =>
    case Correct =>
    case SanctionMismatch =>
    case FalseGrant =>
    case FalseDenial =>
    case Unclassed =>
  }

  /** The books balance up to the lost results. */
  lemma {:induction false} Balance(results: seq<Result>, worth: Worth, lost: Result -> bool)
    requires forall r :: worth(r).total == Classes(worth(r)) + Bit(lost(r)) == 1
    ensures Sum(results, worth).total == Classes(Sum(results, worth)) + Lost(results, lost) == |results|
  {
    if results != [] {
      Balance(results[..|results| - 1], worth, lost);
    }
  }

  /**
   * Every result is in exactly one of the five classes, for any results whatever, if and only if none errs
   * without a ruling that differs from the expected one.
   */
  lemma ConservedIff(results: seq<Result>)
    ensures Sum(results, ONE).total == |results|
    ensures
      Sum(results, ONE).total == Classes(Sum(results, ONE))
      <==> forall k :: 0 <= k < |results| ==> !IsLost(results[k])
  {
    forall r ensures ONE(r).total == Classes(ONE(r)) + Bit(IsLost(r)) == 1 {
      OneIsClassed(r);
      LostIsUnclassed(r);
    }
    Balance(results, ONE, IsLost);
    NoneLost(results, IsLost);
  }

  lemma {:induction false} GrantsSplit(results: seq<Result>, worth: Worth)
    requires forall k :: 0 <= k < |results| ==>
      worth(results[k]).grantCorrect == worth(results[k]).correct + worth(results[k]).sanctionMismatches
    ensures Sum(results, worth).grantCorrect == Sum(results, worth).correct + Sum(results, worth).sanctionMismatches
  {
    if results != [] {
      GrantsSplit(results[..|results| - 1], worth);
    }
  }

  lemma CleanOne(r: Result)
    requires Clean(r)
    ensures !IsLost(r) && One(r).grantCorrect == One(r).correct + One(r).sanctionMismatches
  {
  }

  /** Over scored results, and over rescored ones with a ruling or a problem, both equations hold. */
  lemma CleanIsConserved(results: seq<Result>)
    requires forall k :: 0 <= k < |results| ==> Clean(results[k])
    ensures Sum(results, ONE).total == Classes(Sum(results, ONE)) == |results|
    ensures Sum(results, ONE).grantCorrect == Sum(results, ONE).correct + Sum(results, ONE).sanctionMismatches
  {
    forall k | 0 <= k < |results|
      ensures !IsLost(results[k])
      ensures ONE(results[k]).grantCorrect == ONE(results[k]).correct + ONE(results[k]).sanctionMismatches
    {
      CleanOne(results[k]);
    }
    ConservedIff(results);
    GrantsSplit(results, ONE);
  }

  /** The sum over a table. */
  ghost function TableSum(table: Table): Slice
    decreases |table|
  {
    if table == map[] then ZERO
    else
      var key :| key in table;
      OneLess(table, key);
      Plus(table[key], TableSum(table - {key}))
  }

  /** The sum does not depend on which key is taken first. */
  lemma {:induction false} TableSumAt(table: Table, key: string)
    requires key in table
    ensures TableSum(table) == Plus(table[key], TableSum(table - {key}))
    decreases |table|
  {
    var first :| first in table && TableSum(table) == Plus(table[first], TableSum(table - {first}));
    if first != key {
      OneLess(table, first);
      OneLess(table, key);
      TableSumAt(table - {first}, key);
      TableSumAt(table - {key}, first);
      var rest := table - {first} - {key};
      assert rest == table - {key} - {first};
      PlusSwap(table[first], table[key], TableSum(rest));
    }
  }

  lemma PlusSwap(a: Slice, b: Slice, c: Slice)
    ensures Plus(a, Plus(b, c)) == Plus(b, Plus(a, c))
    ensures Plus(Plus(a, b), c) == Plus(Plus(a, c), b)
  {
  }

  lemma CountedSum(table: Table, key: string, one: Slice)
    ensures TableSum(Counted(table, key, one)) == Plus(TableSum(table), one)
  {
    var after := Counted(table, key, one);
    TableSumAt(after, key);
    if key in table {
      assert after - {key} == table - {key};
      TableSumAt(table, key);
      PlusSwap(table[key], one, TableSum(table - {key}));
    } else {
      assert after - {key} == table;
    }
  }

  /** Every table by one label sums up to the summary's own counters. */
  lemma {:induction false} TableSums<A>(items: seq<A>, keyOf: A -> string, worth: A -> Slice)
    ensures TableSum(TableOf(items, keyOf, worth)) == Sum(items, worth)
  {
    if items != [] {
      var front, last := items[..|items| - 1], items[|items| - 1];
      TableSums(front, keyOf, worth);
      CountedSum(TableOf(front, keyOf, worth), keyOf(last), worth(last));
    }
  }

  function Under<A>(items: seq<A>, keyOf: A -> string, key: string): seq<A> {
    if items == [] then []
    else
      Under(items[..|items| - 1], keyOf, key)
      + if keyOf(items[|items| - 1]) == key then [items[|items| - 1]] else []
  }

  lemma SumNext<A>(items: seq<A>, last: A, worth: A -> Slice)
    ensures Sum(items + [last], worth) == Plus(Sum(items, worth), worth(last))
    ensures Sum([], worth) == ZERO
  {
    assert (items + [last])[..|items|] == items;
  }

  /** Each entry of a table is the sum over just the items with that label. */
  lemma {:induction false} EntriesSum<A>(items: seq<A>, keyOf: A -> string, worth: A -> Slice, key: string)
    ensures key in TableOf(items, keyOf, worth) <==> Under(items, keyOf, key) != []
    ensures
      key in TableOf(items, keyOf, worth) ==>
        TableOf(items, keyOf, worth)[key] == Sum(Under(items, keyOf, key), worth)
  {
    if items != [] {
      var front, last := items[..|items| - 1], items[|items| - 1];
      EntriesSum(front, keyOf, worth, key);
      EntryCounted(TableOf(front, keyOf, worth), keyOf(last), last, worth, key, Under(front, keyOf, key));
    }
  }

  lemma EntryCounted<A>(
    table: Table, name: string, last: A, worth: A -> Slice, key: string, before: seq<A>)
    requires key in table <==> before != []
    requires key in table ==> table[key] == Sum(before, worth)
    ensures
      var after, under := Counted(table, name, worth(last)), before + if name == key then [last] else [];
      (key in after <==> under != []) && (key in after ==> after[key] == Sum(under, worth))
  {
    if name == key {
      SumNext(before, last, worth);
    } else {
      assert before + [] == before;
    }
  }

  /** Rescoring the results that scoring made changes no counter and no table. */
  lemma RescoringKeepsSums(fixtures: seq<Fixture>, calls: seq<seq<ToolCall>>, matcher: Matcher, keyOf: Result -> string)
    requires |fixtures| == |calls|
    ensures
      var results := seq(|fixtures|, k requires 0 <= k < |fixtures| => Scored(fixtures[k], calls[k], matcher));
      var again := seq(|results|, k requires 0 <= k < |results| => Rescored(results[k], matcher));
      && Sum(again, ONE) == Sum(results, ONE) && ReasonsCorrect(again) == ReasonsCorrect(results)
      && TableOf(again, keyOf, ONE) == TableOf(results, keyOf, ONE) && TagTable(again, ONE) == TagTable(results, ONE)
  {
    var results := seq(|fixtures|, k requires 0 <= k < |fixtures| => Scored(fixtures[k], calls[k], matcher));
    var again := seq(|results|, k requires 0 <= k < |results| => Rescored(results[k], matcher));
    forall k | 0 <= k < |results| ensures again[k] == results[k] {
      RescoreChangesNothing(fixtures[k], calls[k], matcher);
    }
    assert again == results;
  }
}
