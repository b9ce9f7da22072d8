/** The selection behind `renderStatusGrid`: one card per breakdown entry, in
    breakdown order, except the closed-like statuses, which the hero numbers
    already cover; a card whose status mentions "reopen" and whose count is
    positive is highlighted. */
module StatusGrid {
  import opened Config
  import opened Issues
  import opened Aggregation

  /** The lower-case names the grid hides. */
  const HIDDEN_STATUSES: seq<string> := ["done", "closed", "verified", "resolved"]

  /** `toLowerCase` on one character: A-Z become a-z, everything else stays. */
  function Lower(c: char): (r: char)
    ensures 'A' <= c <= 'Z' ==> r as int == c as int + 32
    ensures !('A' <= c <= 'Z') ==> r == c
  {
    if 'A' <= c <= 'Z' then (c as int + 32) as char else c
  }

  function LowerString(s: string): (r: string)
    ensures |r| == |s|
    ensures forall i :: 0 <= i < |s| ==> r[i] == Lower(s[i])
  {
    if s == [] then [] else [Lower(s[0])] + LowerString(s[1..])
  }

  /** `String.prototype.includes`: `sub` starts at some position of `s`. */
  predicate Contains(s: string, sub: string) {
    |sub| <= |s| && (s[..|sub|] == sub || Contains(s[1..], sub))
  }

  /** `sub` occurs in `s` starting at position `i`. */
  predicate OccursAt(s: string, sub: string, i: int) {
    0 <= i && i + |sub| <= |s| && s[i..i + |sub|] == sub
  }

  /** `Contains` finds exactly the substrings: `sub` occurs at some position
      of `s`. */
  lemma {:induction false} ContainsOccurs(s: string, sub: string)
    ensures Contains(s, sub) <==> exists i :: OccursAt(s, sub, i)
  {
    if |sub| <= |s| {
      if s[..|sub|] == sub {
        assert OccursAt(s, sub, 0);
      } else {
        assert !OccursAt(s, sub, 0);
        ContainsOccurs(s[1..], sub);
        if Contains(s[1..], sub) {
          var j :| OccursAt(s[1..], sub, j);
          assert s[j + 1..j + 1 + |sub|] == s[1..][j..j + |sub|];
          assert OccursAt(s, sub, j + 1);
        }
        if i :| OccursAt(s, sub, i) {
          assert i > 0;
          assert s[1..][i - 1..i - 1 + |sub|] == s[i..i + |sub|];
          assert OccursAt(s[1..], sub, i - 1);
        }
      }
    }
  }

  predicate IsHidden(status: string) {
    LowerString(status) in HIDDEN_STATUSES
  }

  datatype Card = Card(status: string, count: nat, reopen: bool)

  function CardOf(e: StatusCount): (c: Card)
    ensures c.status == e.status && c.count == e.count
    ensures c.reopen ==> e.count > 0
  {
    Card(e.status, e.count, Contains(LowerString(e.status), "reopen") && e.count > 0)
  }

  /** The card of one entry, if its status is shown. */
  function Shown(e: StatusCount): seq<Card> {
    if IsHidden(e.status) then [] else [CardOf(e)]
  }

  /** The cards, in breakdown order. */
  function Grid(b: seq<StatusCount>): (r: seq<Card>)
    ensures |r| <= |b|
  {
    if b == [] then [] else Shown(b[0]) + Grid(b[1..])
  }

  // ---------------------------------------------------------------------
  // Reference definitions

  function CardTotal(cards: seq<Card>): nat {
    if cards == [] then 0 else cards[0].count + CardTotal(cards[1..])
  }

  /** The issues counted under a hidden status. */
  function HiddenTotal(b: seq<StatusCount>): nat {
    if b == [] then 0 else (if IsHidden(b[0].status) then b[0].count else 0) + HiddenTotal(b[1..])
  }

  /** How many issues of a batch have a status the grid shows. */
  function CountShown(issues: seq<Issue>): nat {
    if issues == [] then 0
    else CountShown(issues[..|issues| - 1]) + if IsHidden(issues[|issues| - 1].status) then 0 else 1
  }

  predicate AllPositive(b: seq<StatusCount>) {
    forall i :: 0 <= i < |b| ==> b[i].count > 0
  }

  // ---------------------------------------------------------------------
  // Lemmas

  lemma LowersTo(s: string, t: string)
    requires |s| == |t| && forall i :: 0 <= i < |s| ==> Lower(s[i]) == t[i]
    ensures LowerString(s) == t
  {
  }

  /** Hiding ignores case: a status is hidden exactly when it equals one of
      the hidden names letter by letter once lower-cased. */
  lemma HiddenIgnoresCase(status: string)
    ensures IsHidden(status) <==>
      exists h :: h in HIDDEN_STATUSES && |h| == |status| && forall i :: 0 <= i < |h| ==> Lower(status[i]) == h[i]
  {
    forall h | h in HIDDEN_STATUSES && |h| == |status| && (forall i :: 0 <= i < |h| ==> Lower(status[i]) == h[i])
      ensures LowerString(status) == h
    {
      LowersTo(status, h);
    }
  }

  /** Every status counted as done is hidden from the grid. */
  lemma DoneIsHidden(status: string)
    requires IsDone(status)
    ensures IsHidden(status)
  {
    if status == "Done" {
      LowersTo("Done", "done");
    } else if status == "Closed" {
      LowersTo("Closed", "closed");
    } else if status == "Verified" {
      LowersTo("Verified", "verified");
    } else {
      LowersTo("Resolved", "resolved");
    }
  }

  /** The converse fails: a lower-case "done" is neither counted as done nor
      shown in the grid. */
  lemma LowercaseDoneIsUncounted()
    ensures !IsDone("done") && IsHidden("done")
  {
    LowersTo("done", "done");
  }

  /** Every card shows an entry with a visible status, and every such entry
      has its card. */
  lemma {:induction false} GridCards(b: seq<StatusCount>)
    ensures forall c :: c in Grid(b) <==> exists e :: e in b && !IsHidden(e.status) && c == CardOf(e)
  {
    if b != [] {
      GridCards(b[1..]);
      assert b == [b[0]] + b[1..];
    }
  }

  /** The cards and the hidden entries share out the breakdown's issues. */
  lemma {:induction false} GridSplit(b: seq<StatusCount>)
    ensures CardTotal(Grid(b)) + HiddenTotal(b) == SumCounts(b)
  {
    if b != [] {
      GridSplit(b[1..]);
      var head := if IsHidden(b[0].status) then [] else [CardOf(b[0])];
      CardTotalConcat(head, Grid(b[1..]));
    }
  }

  lemma {:induction false} CardTotalConcat(a: seq<Card>, c: seq<Card>)
    ensures CardTotal(a + c) == CardTotal(a) + CardTotal(c)
  {
    if a == [] {
      assert a + c == c;
    } else {
      CardTotalConcat(a[1..], c);
      assert (a + c)[1..] == a[1..] + c;
    }
  }

  /** Counting one more issue adds one to the grid exactly when its status is
      shown, and keeps every count positive. */
  lemma {:induction false} BumpShown(b: seq<StatusCount>, status: string)
    ensures CardTotal(Grid(BumpStatus(b, status))) == CardTotal(Grid(b)) + if IsHidden(status) then 0 else 1
    ensures AllPositive(b) ==> AllPositive(BumpStatus(b, status))
  {
    var r := BumpStatus(b, status);
    if b == [] {
      assert r == [StatusCount(status, 1)];
      assert r[1..] == [];
    } else if b[0].status == status {
      assert r[1..] == b[1..];
      var head := if IsHidden(status) then [] else [CardOf(r[0])];
      var head0 := if IsHidden(status) then [] else [CardOf(b[0])];
      CardTotalConcat(head, Grid(b[1..]));
      CardTotalConcat(head0, Grid(b[1..]));
    } else {
      BumpShown(b[1..], status);
      assert r[1..] == BumpStatus(b[1..], status);
      var head := if IsHidden(b[0].status) then [] else [CardOf(b[0])];
      CardTotalConcat(head, Grid(r[1..]));
      CardTotalConcat(head, Grid(b[1..]));
    }
  }

  /** The grid of a batch's statistics shows exactly the issues whose status is
      not hidden, and every entry's count is positive. */
  lemma {:induction false} GridCountsIssues(total: nat, issues: seq<Issue>)
    ensures CardTotal(Grid(Accumulate(total, issues).statusBreakdown)) == CountShown(issues)
    ensures AllPositive(Accumulate(total, issues).statusBreakdown)
  {
    if issues != [] {
      var prev := issues[..|issues| - 1];
      GridCountsIssues(total, prev);
      BumpShown(Accumulate(total, prev).statusBreakdown, issues[|issues| - 1].status);
    }
  }

  lemma {:induction false} ShownAndDone(issues: seq<Issue>)
    ensures CountShown(issues) + CountDone(issues) <= |issues|
  {
    if issues != [] {
      var last := issues[|issues| - 1];
      ShownAndDone(issues[..|issues| - 1]);
      if IsDone(last.status) {
        DoneIsHidden(last.status);
      }
    }
  }

  /** The grid never shows more issues than are open: its cards add up to at
      most `total - done`. */
  lemma GridWithinOpen(issues: seq<Issue>)
    ensures var s := Aggregate(issues);
      CardTotal(Grid(s.statusBreakdown)) <= s.total - s.done
  {
    GridCountsIssues(|issues|, issues);
    ShownAndDone(issues);
    AggregateCounts(issues);
  }

  /** For the statistics of a batch every count is positive, so a card is
      highlighted exactly when its status mentions "reopen". */
  lemma ReopenHighlight(issues: seq<Issue>, c: Card)
    requires c in Grid(Aggregate(issues).statusBreakdown)
    ensures c.reopen <==> Contains(LowerString(c.status), "reopen")
  {
    var b := Aggregate(issues).statusBreakdown;
    GridCountsIssues(|issues|, issues);
    GridCards(b);
    var e :| e in b && !IsHidden(e.status) && c == CardOf(e);
  }

  /** The grid keeps breakdown order: the cards of a breakdown split in two
      are the cards of the first part followed by those of the second. */
  lemma {:induction false} GridConcat(b1: seq<StatusCount>, b2: seq<StatusCount>)
    ensures Grid(b1 + b2) == Grid(b1) + Grid(b2)
  {
    if b1 == [] {
      assert b1 + b2 == b2;
    } else {
      var e, rest := b1[0], b1[1..];
      GridConcat(rest, b2);
      GridConcatStep(e, rest, b2);
      assert b1 == [e] + rest;
      assert b1 + b2 == [e] + (rest + b2);
    }
  }

  lemma GridConcatStep(e: StatusCount, rest: seq<StatusCount>, b2: seq<StatusCount>)
    requires Grid(rest + b2) == Grid(rest) + Grid(b2)
    ensures Grid([e] + (rest + b2)) == Grid([e] + rest) + Grid(b2)
  {
    GridCons(e, rest);
    GridCons(e, rest + b2);
  }

  lemma GridCons(e: StatusCount, rest: seq<StatusCount>)
    ensures Grid([e] + rest) == Shown(e) + Grid(rest)
  {
    assert ([e] + rest)[1..] == rest;
  }

  /** "To Do" is shown, not highlighted. */
  lemma ToDoCard()
    ensures !IsHidden("To Do") && CardOf(StatusCount("To Do", 2)) == Card("To Do", 2, false)
  {
    LowersTo("To Do", "to do");
  }

  /** "Reopened" with a positive count is shown highlighted. */
  lemma ReopenedCard()
    ensures !IsHidden("Reopened") && CardOf(StatusCount("Reopened", 1)) == Card("Reopened", 1, true)
  {
    LowersTo("Reopened", "reopened");
    assert "reopened"[..6] == "reopen";
  }
}
