/** Which of several replications for one profile is accepted: the oldest, and of
    equally old ones the first by name. */
module Election {
  import opened Prelude

  /** The status of a replication; `NoPhase` until it is first written. */
  datatype Phase = NoPhase | Pending | Ready | Rejected

  datatype Candidate = Candidate(name: string, created: int)

  predicate Earlier(a: Candidate, b: Candidate) {
    if a.created != b.created then a.created < b.created else StringLess(a.name, b.name)
  }

  /** On candidates with different names the order is strict and total. */
  lemma EarlierIsStrictTotalOrder(a: Candidate, b: Candidate, c: Candidate)
    ensures !Earlier(a, a)
    ensures !(Earlier(a, b) && Earlier(b, a))
    ensures a.name != b.name ==> Earlier(a, b) || Earlier(b, a)
    ensures Earlier(a, b) && Earlier(b, c) ==> Earlier(a, c)
  {
    StringLessTotal(a.name, b.name);
    StringLessTotal(a.name, a.name);
    if StringLess(a.name, b.name) && StringLess(b.name, c.name) {
      StringLessTransitive(a.name, b.name, c.name);
    }
  }

  // -------------------------------------------------------------- the winner

  ghost predicate DistinctNames(items: seq<Candidate>) {
    forall i, j :: 0 <= i < j < |items| ==> items[i].name != items[j].name
  }

  ghost predicate Wins(w: Candidate, items: seq<Candidate>) {
    w in items && forall c :: c in items && c != w ==> Earlier(w, c)
  }

  ghost predicate Sorted(items: seq<Candidate>) {
    forall i, j :: 0 <= i < j < |items| ==> Earlier(items[i], items[j])
  }

  /** However the list was given and however it was sorted, its first item is the
      one winner. */
  lemma FirstOfSortedWins(items: seq<Candidate>, sorted: seq<Candidate>)
    requires multiset(sorted) == multiset(items) && items != [] && Sorted(sorted)
    ensures sorted != [] && Wins(sorted[0], items)
    ensures forall w :: Wins(w, items) ==> w == sorted[0]
  {
    SameElements(items, sorted);
    assert sorted != [] by {
      assert items[0] in items;
    }
    forall w | Wins(w, items) ensures w == sorted[0] {
      EarlierIsStrictTotalOrder(w, sorted[0], w);
    }
  }

  /** Created no later than any other item, and of those created at the same time the
      first by name. */
  ghost predicate Oldest(w: Candidate, items: seq<Candidate>) {
    w in items && forall c :: c in items ==>
      w.created <= c.created && (c.created == w.created && c.name != w.name ==> ComesBefore(w.name, c.name))
  }

  lemma EarlierMeaning(a: Candidate, b: Candidate)
    ensures Earlier(a, b) <==> a.created < b.created || (a.created == b.created && ComesBefore(a.name, b.name))
    ensures ComesBefore(a.name, b.name) ==> a.name != b.name
  {
    StringLessMeaning(a.name, b.name);
    StringLessTotal(a.name, b.name);
  }

  lemma SortedByAge(items: seq<Candidate>)
    requires Sorted(items)
    ensures forall i, j :: 0 <= i < j < |items| ==>
              items[i].created < items[j].created ||
              (items[i].created == items[j].created && ComesBefore(items[i].name, items[j].name))
  {
    forall i, j | 0 <= i < j < |items|
      ensures items[i].created < items[j].created ||
              (items[i].created == items[j].created && ComesBefore(items[i].name, items[j].name))
    {
      EarlierMeaning(items[i], items[j]);
    }
  }

  /** Who wins is the oldest. */
  lemma OldestWins(w: Candidate, items: seq<Candidate>)
    requires DistinctNames(items)
    ensures Wins(w, items) <==> Oldest(w, items)
  {
    forall c { EarlierMeaning(w, c); }
    if Oldest(w, items) {
      forall c | c in items && c != w ensures Earlier(w, c) {
        var i :| 0 <= i < |items| && items[i] == w;
        var j :| 0 <= j < |items| && items[j] == c;
        assert c.name != w.name;
      }
    }
  }

  lemma SameElements<T>(a: seq<T>, b: seq<T>)
    requires multiset(a) == multiset(b)
    ensures forall x :: x in a <==> x in b
  {
    assert forall x :: x in a <==> x in multiset(a);
    assert forall x :: x in b <==> x in multiset(b);
  }

  /** Every non-empty list has a winner. */
  lemma {:induction false} SomeoneWins(items: seq<Candidate>) returns (w: Candidate)
    requires items != [] && DistinctNames(items)
    ensures Wins(w, items)
  {
    w := items[0];
    if |items| > 1 {
      var v := SomeoneWins(items[1..]);
      EarlierIsStrictTotalOrder(w, v, w);
      if Earlier(v, w) {
        w := v;
      } else {
        forall c | c in items && c != w ensures Earlier(w, c) {
          EarlierIsStrictTotalOrder(w, v, c);
        }
      }
    }
  }

  // ------------------------------------------------------------------ in place

  /** One reconcile of a replication: its own name, and the status it will write. */
  class Reconcile {
    const name: string
    var phase: Phase

    constructor (name: string)
      ensures this.name == name
    {
      this.name := name;
      phase := Pending;
    }

    /** Sort the listed items by age, in place. */
    method SortByAge(items: array<Candidate>)
      requires DistinctNames(items[..])
      modifies items
      ensures multiset(items[..]) == multiset(old(items[..])) && Sorted(items[..])
      ensures forall i, j :: 0 <= i < j < items.Length ==>
                items[i].created < items[j].created ||
                (items[i].created == items[j].created && ComesBefore(items[i].name, items[j].name))
    {
      for n := 0 to items.Length
        invariant multiset(items[..]) == multiset(old(items[..]))
        invariant DistinctNames(items[..])
        invariant Front(items[..], n)
      {
        var least := LeastFrom(items, n);
        SwapInto(items[..], n, least);
        items[n], items[least] := items[least], items[n];
      }
      SortedByAge(items[..]);
    }

    method LeastFrom(items: array<Candidate>, n: nat) returns (least: nat)
      requires n < items.Length && DistinctNames(items[..])
      ensures n <= least < items.Length
      ensures forall j :: n <= j < items.Length && j != least ==> Earlier(items[least], items[j])
    {
      least := n;
      for k := n + 1 to items.Length
        invariant n <= least < k
        invariant forall j :: n <= j < k && j != least ==> Earlier(items[least], items[j])
      {
        StillLeast(items[..], n, k, least);
        if Earlier(items[k], items[least]) {
          least := k;
        }
      }
    }

    /** The verdict on this reconcile's resource; nothing is decided when the list is
        empty, because there is no first item. */
    method ReconcilePhases(profileExists: bool, items: array<Candidate>) returns (aborted: bool)
      requires DistinctNames(items[..])
      modifies this, items
      ensures aborted <==> profileExists && items.Length == 0
      ensures !aborted ==>
                phase == if profileExists && (exists w :: Oldest(w, old(items[..])) && w.name == name) then Ready else Rejected
    {
      phase := Pending;
      if !profileExists {
        phase := Rejected;
        return false;
      }
      ghost var listed := items[..];
      SortByAge(items);
      if items.Length == 0 {
        return true;
      }
      FirstOfSortedWins(listed, items[..]);
      var winner := items[0];
      forall w { OldestWins(w, listed); }
      if name == winner.name {
        phase := Ready;
      } else {
        phase := Rejected;
      }
      return false;
    }
  }

  /** The first n items are sorted and earlier than all others. */
  ghost predicate Front(items: seq<Candidate>, n: nat) {
    forall i, j :: 0 <= i < n && i < j < |items| ==> Earlier(items[i], items[j])
  }

  lemma SwapInto(items: seq<Candidate>, n: nat, least: nat)
    requires n <= least < |items| && Front(items, n) && DistinctNames(items)
    requires forall j :: n <= j < |items| && j != least ==> Earlier(items[least], items[j])
    ensures var r := items[n := items[least]][least := items[n]];
            multiset(r) == multiset(items) && DistinctNames(r) && Front(r, n + 1)
  {
  }

  lemma StillLeast(items: seq<Candidate>, n: nat, k: nat, least: nat)
    requires n <= least < k < |items| && DistinctNames(items)
    requires forall j :: n <= j < k && j != least ==> Earlier(items[least], items[j])
    ensures Earlier(items[k], items[least]) ==> forall j :: n <= j < k ==> Earlier(items[k], items[j])
    ensures !Earlier(items[k], items[least]) ==> Earlier(items[least], items[k])
  {
    EarlierIsStrictTotalOrder(items[k], items[least], items[k]);
    forall j | n <= j < k && Earlier(items[k], items[least]) ensures Earlier(items[k], items[j]) {
      EarlierIsStrictTotalOrder(items[k], items[least], items[j]);
    }
  }
}
