/** The statistics snapshot of a batch of issues and the per-issue step that
    builds it, together with independent counting definitions and the lemmas
    that connect the two. */
module Aggregation {
  import opened Wrappers
  import opened Config
  import opened Issues

  /** One entry of the status histogram. */
  datatype StatusCount = StatusCount(status: string, count: nat)

  /** One entry of a person registry. */
  datatype Person = Person(name: string, avatar: Option<string>, bugs: nat, points: nat)

  /** `this.stats`; the histogram and the registries are dictionaries kept in
      insertion order, as JavaScript iterates string-keyed objects. */
  datatype Stats = Stats(
    total: nat,
    done: nat,
    statusBreakdown: seq<StatusCount>,
    developers: seq<Person>,
    testers: seq<Person>)

  const EMPTY_STATS := Stats(0, 0, [], [], [])

  predicate Distinct<T(==)>(s: seq<T>) {
    forall i, j :: 0 <= i < j < |s| ==> s[i] != s[j]
  }

  // ---------------------------------------------------------------------
  // Status histogram

  function Statuses(b: seq<StatusCount>): seq<string> {
    if b == [] then [] else [b[0].status] + Statuses(b[1..])
  }

  /** `statusBreakdown[status]`, 0 when absent. */
  function CountIn(b: seq<StatusCount>, status: string): nat {
    if b == [] then 0
    else if b[0].status == status then b[0].count
    else CountIn(b[1..], status)
  }

  function SumCounts(b: seq<StatusCount>): nat {
    if b == [] then 0 else b[0].count + SumCounts(b[1..])
  }

  /** `statusBreakdown[status]++`, creating the entry at the end when absent. */
  function BumpStatus(b: seq<StatusCount>, status: string): (r: seq<StatusCount>)
    ensures forall x :: CountIn(r, x) == CountIn(b, x) + (if x == status then 1 else 0)
    ensures SumCounts(r) == SumCounts(b) + 1
    ensures Statuses(r) == if status in Statuses(b) then Statuses(b) else Statuses(b) + [status]
  {
    if b == [] then [StatusCount(status, 1)]
    else if b[0].status == status then [b[0].(count := b[0].count + 1)] + b[1..]
    else [b[0]] + BumpStatus(b[1..], status)
  }

  // ---------------------------------------------------------------------
  // Person registries

  function Names(reg: seq<Person>): seq<string> {
    if reg == [] then [] else [reg[0].name] + Names(reg[1..])
  }

  function SumBugs(reg: seq<Person>): nat {
    if reg == [] then 0 else reg[0].bugs + SumBugs(reg[1..])
  }

  /** `store[name]`, None when absent. */
  function Find(reg: seq<Person>, name: string): (r: Option<Person>)
    ensures r.Some? ==> r.value.name == name && r.value in reg
    ensures r.None? <==> name !in Names(reg)
  {
    if reg == [] then None
    else if reg[0].name == name then Some(reg[0])
    else Find(reg[1..], name)
  }

  lemma {:induction false} NamesListed(reg: seq<Person>, p: Person)
    requires p in reg
    ensures p.name in Names(reg)
  {
    if reg[0] != p {
      NamesListed(reg[1..], p);
    }
  }

  /** Points an attributed issue adds: its severity's points when done, else 0. */
  function Award(priority: string, isDone: bool): (r: nat)
    ensures isDone ==> r == PointsFor(priority)
    ensures !isDone ==> r == 0
    ensures r <= MAX_POINTS
    ensures isDone <==> r > 0
  {
    if isDone then PointsFor(priority) else 0
  }

  /** The award of an issue, from its effective severity and its status. */
  function IssueAward(issue: Issue): nat {
    Award(EffectivePriority(issue), IsDone(issue.status))
  }

  /** The entry for `name` after one more attributed issue: a new person
      keeps the avatar it was created with; bugs grow by one, points by the award. */
  function Bumped(p: Option<Person>, name: string, avatar: Option<string>, award: nat): Person {
    match p
    case None => Person(name, avatar, 1, award)
    case Some(q) => q.(bugs := q.bugs + 1, points := q.points + award)
  }

  /** The body of `_updatePerson` once the points are known: create the entry
      at the end if absent, count the bug and add `award` points. */
  function AddBug(store: seq<Person>, name: string, avatar: Option<string>, award: nat): (r: seq<Person>)
    ensures Names(r) == if name in Names(store) then Names(store) else Names(store) + [name]
    ensures SumBugs(r) == SumBugs(store) + 1
  {
    if store == [] then [Person(name, avatar, 1, award)]
    else if store[0].name == name then
      [store[0].(bugs := store[0].bugs + 1, points := store[0].points + award)] + store[1..]
    else [store[0]] + AddBug(store[1..], name, avatar, award)
  }

  /** `_updatePerson`: count the bug and add the severity's points when the
      issue is done. */
  function UpdatePerson(store: seq<Person>, name: string, avatar: Option<string>, priority: string, isDone: bool)
    : (r: seq<Person>)
    ensures Names(r) == if name in Names(store) then Names(store) else Names(store) + [name]
    ensures SumBugs(r) == SumBugs(store) + 1
  {
    AddBug(store, name, avatar, Award(priority, isDone))
  }

  /** Looking a name up after an update: the updated name holds its bumped
      entry, every other name is unchanged. */
  lemma {:induction false} FindAfterUpdate(store: seq<Person>, name: string, avatar: Option<string>, award: nat, x: string)
    ensures Find(AddBug(store, name, avatar, award), x) ==
      if x == name then Some(Bumped(Find(store, name), name, avatar, award)) else Find(store, x)
  {
    if store != [] && store[0].name != name {
      FindAfterUpdate(store[1..], name, avatar, award, x);
    }
  }

  /** Update a registry with an issue's credit, if it has one. */
  function Attribute(store: seq<Person>, c: Option<Credit>, award: nat): seq<Person> {
    if c.Some? then AddBug(store, c.value.name, c.value.avatar, award) else store
  }

  function RegistryOf(s: Stats, role: Role): seq<Person> {
    match role
    case Tester => s.testers
    case Developer => s.developers
  }

  // ---------------------------------------------------------------------
  // The fold

  /** `_analyzeIssue`: one issue's contribution to the snapshot. */
  function Analyze(s: Stats, issue: Issue): (r: Stats)
    ensures r.total == s.total
    ensures r.done == s.done + if IsDone(issue.status) then 1 else 0
    ensures SumCounts(r.statusBreakdown) == SumCounts(s.statusBreakdown) + 1
    ensures SumBugs(r.testers) == SumBugs(s.testers) + 1
    ensures SumBugs(r.developers) == SumBugs(s.developers) + if DeveloperName(issue) != "Unassigned" then 1 else 0
  {
    var award := IssueAward(issue);
    Stats(
      s.total,
      if IsDone(issue.status) then s.done + 1 else s.done,
      BumpStatus(s.statusBreakdown, issue.status),
      Attribute(s.developers, CreditOf(issue, Developer), award),
      Attribute(s.testers, CreditOf(issue, Tester), award))
  }

  /** The snapshot after resetting with `total` and analysing `issues` in order. */
  function Accumulate(total: nat, issues: seq<Issue>): (r: Stats)
    ensures r.total == total
  {
    if issues == [] then Stats(total, 0, [], [], [])
    else Analyze(Accumulate(total, issues[..|issues| - 1]), issues[|issues| - 1])
  }

  /** `processData`: total is the number of issues loaded, whatever the
      payload's own metadata says. */
  function Aggregate(issues: seq<Issue>): (r: Stats)
    ensures r.total == |issues|
  {
    Accumulate(|issues|, issues)
  }

  // ---------------------------------------------------------------------
  // Independent definitions of what the snapshot should hold

  function CountStatus(issues: seq<Issue>, status: string): nat {
    if issues == [] then 0
    else CountStatus(issues[..|issues| - 1], status) + (if issues[|issues| - 1].status == status then 1 else 0)
  }

  function CountDone(issues: seq<Issue>): nat {
    if issues == [] then 0
    else CountDone(issues[..|issues| - 1]) + (if IsDone(issues[|issues| - 1].status) then 1 else 0)
  }

  /** The distinct statuses of a batch, in order of first occurrence. */
  function FirstSeen(issues: seq<Issue>): seq<string> {
    if issues == [] then []
    else
      var f := FirstSeen(issues[..|issues| - 1]);
      var st := issues[|issues| - 1].status;
      if st in f then f else f + [st]
  }

  predicate CreditedTo(issue: Issue, role: Role, name: string) {
    var c := CreditOf(issue, role);
    c.Some? && c.value.name == name
  }

  /** How many issues of the batch are attributed to `name` in the registry. */
  function CreditCount(issues: seq<Issue>, role: Role, name: string): nat {
    if issues == [] then 0
    else CreditCount(issues[..|issues| - 1], role, name) + (if CreditedTo(issues[|issues| - 1], role, name) then 1 else 0)
  }

  /** The points of the done issues attributed to `name`. */
  function CreditPoints(issues: seq<Issue>, role: Role, name: string): nat {
    if issues == [] then 0
    else
      var issue := issues[|issues| - 1];
      CreditPoints(issues[..|issues| - 1], role, name) +
      (if CreditedTo(issue, role, name) then IssueAward(issue) else 0)
  }

  /** The avatar of the first issue attributed to `name`. */
  function FirstAvatar(issues: seq<Issue>, role: Role, name: string): Option<string> {
    if issues == [] then None
    else
      var issue := issues[|issues| - 1];
      if CreditCount(issues[..|issues| - 1], role, name) > 0 then FirstAvatar(issues[..|issues| - 1], role, name)
      else if CreditedTo(issue, role, name) then CreditOf(issue, role).value.avatar
      else None
  }

  // ---------------------------------------------------------------------
  // Lemmas

  lemma {:induction false} FirstSeenDistinct(issues: seq<Issue>)
    ensures Distinct(FirstSeen(issues))
  {
    if issues != [] {
      FirstSeenDistinct(issues[..|issues| - 1]);
    }
  }

  /** The histogram lists each status once, in order of first occurrence,
      with the number of issues that have it; its counts sum to the batch size. */
  lemma {:induction false} BreakdownCounts(total: nat, issues: seq<Issue>)
    ensures var b := Accumulate(total, issues).statusBreakdown;
      && Statuses(b) == FirstSeen(issues)
      && (forall st :: CountIn(b, st) == CountStatus(issues, st))
      && SumCounts(b) == |issues|
  {
    if issues != [] {
      BreakdownCounts(total, issues[..|issues| - 1]);
    }
  }

  lemma {:induction false} CountDoneBound(issues: seq<Issue>)
    ensures CountDone(issues) <= |issues|
  {
    if issues != [] {
      CountDoneBound(issues[..|issues| - 1]);
    }
  }

  /** `done` counts exactly the issues whose status is a done status. */
  lemma {:induction false} DoneCounts(total: nat, issues: seq<Issue>)
    ensures Accumulate(total, issues).done == CountDone(issues)
  {
    if issues != [] {
      DoneCounts(total, issues[..|issues| - 1]);
    }
  }

  /** The counters of a snapshot: total is the batch size, the histogram
      sums to it, and done is the number of done issues, at most total. */
  lemma AggregateCounts(issues: seq<Issue>)
    ensures var s := Aggregate(issues);
      && s.total == |issues|
      && SumCounts(s.statusBreakdown) == s.total
      && s.done == CountDone(issues)
      && s.done <= s.total
  {
    BreakdownCounts(|issues|, issues);
    DoneCounts(|issues|, issues);
    CountDoneBound(issues);
  }

  /** One registry of the snapshot, folded on its own. */
  function Registry(issues: seq<Issue>, role: Role): seq<Person> {
    if issues == [] then []
    else
      var issue := issues[|issues| - 1];
      Attribute(Registry(issues[..|issues| - 1], role), CreditOf(issue, role), IssueAward(issue))
  }

  lemma {:induction false} RegistryOfAccumulate(total: nat, issues: seq<Issue>, role: Role)
    ensures RegistryOf(Accumulate(total, issues), role) == Registry(issues, role)
  {
    if issues != [] {
      RegistryOfAccumulate(total, issues[..|issues| - 1], role);
    }
  }

  /** The expected entry for `name`, given the attributed-issue count,
      their points and the first avatar. */
  function Entry(name: string, count: nat, points: nat, avatar: Option<string>): Option<Person> {
    if count == 0 then None else Some(Person(name, avatar, count, points))
  }

  /** One attribution moves the entry of `name` from one reference count to
      the next: the credited person gains one bug and the award and keeps the
      avatar unless new; anyone else is untouched. */
  lemma EntryStep(before: seq<Person>, c: Option<Credit>, award: nat, name: string,
                  count: nat, points: nat, avatar: Option<string>,
                  count': nat, points': nat, avatar': Option<string>)
    requires Find(before, name) == Entry(name, count, points, avatar)
    requires count == 0 ==> points == 0
    requires if c.Some? && c.value.name == name then
        && count' == count + 1 && points' == points + award
        && avatar' == if count > 0 then avatar else c.value.avatar
      else count' == count && points' == points && (count > 0 ==> avatar' == avatar)
    ensures Find(Attribute(before, c, award), name) == Entry(name, count', points', avatar')
  {
    if c.Some? {
      FindAfterUpdate(before, c.value.name, c.value.avatar, award, name);
    }
  }

  /** The reference counts of a batch, one issue longer than `prev`. */
  lemma CreditStep(issues: seq<Issue>, role: Role, name: string)
    requires issues != []
    ensures var prev, issue := issues[..|issues| - 1], issues[|issues| - 1];
      if CreditedTo(issue, role, name) then
        && CreditCount(issues, role, name) == CreditCount(prev, role, name) + 1
        && CreditPoints(issues, role, name) == CreditPoints(prev, role, name) + IssueAward(issue)
        && FirstAvatar(issues, role, name) ==
             if CreditCount(prev, role, name) > 0 then FirstAvatar(prev, role, name) else CreditOf(issue, role).value.avatar
      else
        && CreditCount(issues, role, name) == CreditCount(prev, role, name)
        && CreditPoints(issues, role, name) == CreditPoints(prev, role, name)
        && FirstAvatar(issues, role, name) == if CreditCount(prev, role, name) > 0 then FirstAvatar(prev, role, name) else None
  {
  }

  lemma {:induction false} RegistryFind(issues: seq<Issue>, role: Role, name: string)
    ensures Find(Registry(issues, role), name) ==
      Entry(name, CreditCount(issues, role, name), CreditPoints(issues, role, name), FirstAvatar(issues, role, name))
  {
    if issues != [] {
      var prev := issues[..|issues| - 1];
      var issue := issues[|issues| - 1];
      var c, award := CreditOf(issue, role), IssueAward(issue);
      var before := Registry(prev, role);
      var count, points, avatar := CreditCount(prev, role, name), CreditPoints(prev, role, name), FirstAvatar(prev, role, name);
      var count', points', avatar' := CreditCount(issues, role, name), CreditPoints(issues, role, name), FirstAvatar(issues, role, name);
      assert Registry(issues, role) == Attribute(before, c, award);
      RegistryFind(prev, role, name);
      CreditPointsBound(prev, role, name);
      CreditStep(issues, role, name);
      if c.Some? && c.value.name == name {
        assert CreditedTo(issue, role, name);
        assert count' == count + 1 && points' == points + award;
        assert avatar' == if count > 0 then avatar else c.value.avatar;
      } else {
        assert !CreditedTo(issue, role, name);
        assert count' == count && points' == points;
        assert count > 0 ==> avatar' == avatar;
      }
      EntryStep(before, c, award, name, count, points, avatar, count', points', avatar');
    } else {
      assert Registry(issues, role) == [];
    }
  }

  /** A registry holds exactly the people some issue is attributed to; each
      entry's bugs count those issues, its points sum the awards of the done
      ones, and its avatar is the one of the first such issue. */
  lemma RegistryEntries(issues: seq<Issue>, role: Role, name: string)
    ensures Find(RegistryOf(Aggregate(issues), role), name) ==
      if CreditCount(issues, role, name) == 0 then None
      else Some(Person(name, FirstAvatar(issues, role, name), CreditCount(issues, role, name), CreditPoints(issues, role, name)))
  {
    RegistryOfAccumulate(|issues|, issues, role);
    RegistryFind(issues, role, name);
  }

  lemma {:induction false} CreditPointsBound(issues: seq<Issue>, role: Role, name: string)
    ensures CreditPoints(issues, role, name) <= MAX_POINTS * CreditCount(issues, role, name)
  {
    if issues != [] {
      CreditPointsBound(issues[..|issues| - 1], role, name);
    }
  }

  /** Every person's points are at most 25 per attributed bug. */
  predicate PointsBounded(reg: seq<Person>) {
    forall p :: p in reg ==> p.points <= MAX_POINTS * p.bugs
  }

  lemma {:induction false} AddBugBounded(store: seq<Person>, name: string, avatar: Option<string>, award: nat)
    requires PointsBounded(store) && award <= MAX_POINTS
    ensures PointsBounded(AddBug(store, name, avatar, award))
  {
    if store != [] && store[0].name != name {
      AddBugBounded(store[1..], name, avatar, award);
    }
  }

  /** Every registry entry satisfies 0 <= points <= 25 * bugs. */
  lemma {:induction false} RegistriesBounded(total: nat, issues: seq<Issue>)
    ensures var s := Accumulate(total, issues);
      PointsBounded(s.testers) && PointsBounded(s.developers)
  {
    if issues != [] {
      var prev := issues[..|issues| - 1];
      var issue := issues[|issues| - 1];
      RegistriesBounded(total, prev);
      var s := Accumulate(total, prev);
      var t := CreditOf(issue, Tester);
      AddBugBounded(s.testers, t.value.name, t.value.avatar, IssueAward(issue));
      var c := CreditOf(issue, Developer);
      if c.Some? {
        AddBugBounded(s.developers, c.value.name, c.value.avatar, IssueAward(issue));
      }
    }
  }

  lemma DistinctSnoc(s: seq<string>, x: string)
    requires Distinct(s) && x !in s
    ensures Distinct(s + [x])
  {
  }

  lemma {:induction false} RegistryNamesDistinctFold(issues: seq<Issue>, role: Role)
    ensures Distinct(Names(Registry(issues, role)))
  {
    if issues != [] {
      var prev := issues[..|issues| - 1];
      RegistryNamesDistinctFold(prev, role);
      var c := CreditOf(issues[|issues| - 1], role);
      if c.Some? && c.value.name !in Names(Registry(prev, role)) {
        DistinctSnoc(Names(Registry(prev, role)), c.value.name);
      }
    }
  }

  /** Registry names are distinct: the registry is a dictionary keyed by name. */
  lemma RegistryNamesDistinct(issues: seq<Issue>, role: Role)
    ensures Distinct(Names(RegistryOf(Aggregate(issues), role)))
  {
    RegistryOfAccumulate(|issues|, issues, role);
    RegistryNamesDistinctFold(issues, role);
  }

  lemma {:induction false} NoUnassignedCredit(issues: seq<Issue>)
    ensures CreditCount(issues, Developer, "Unassigned") == 0
  {
    if issues != [] {
      NoUnassignedCredit(issues[..|issues| - 1]);
    }
  }

  /** "Unassigned" never becomes an entry of the developer registry. */
  lemma UnassignedNeverDeveloper(issues: seq<Issue>)
    ensures Find(Aggregate(issues).developers, "Unassigned") == None
  {
    RegistryEntries(issues, Developer, "Unassigned");
    NoUnassignedCredit(issues);
  }

  /** Every issue is attributed to exactly one tester, so the testers' bug
      counts add up to the batch size. */
  lemma {:induction false} TesterBugsTotal(total: nat, issues: seq<Issue>)
    ensures SumBugs(Accumulate(total, issues).testers) == |issues|
  {
    if issues != [] {
      TesterBugsTotal(total, issues[..|issues| - 1]);
    }
  }
}
