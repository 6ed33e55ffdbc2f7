/** The byte-wise order on texts and the sorted listing of a set of them. */
module TextOrder {

  predicate Less(a: string, b: string) {
    if b == "" then false
    else if a == "" then true
    else a[0] < b[0] || (a[0] == b[0] && Less(a[1..], b[1..]))
  }

  lemma {:induction false} LessIrreflexive(a: string)
    ensures !Less(a, a)
  {
    if a != "" {
      LessIrreflexive(a[1..]);
    }
  }

  lemma {:induction false} LessTransitive(a: string, b: string, c: string)
    requires Less(a, b) && Less(b, c)
    ensures Less(a, c)
  {
    if a != "" && a[0] == b[0] == c[0] {
      LessTransitive(a[1..], b[1..], c[1..]);
    }
  }

  lemma {:induction false} LessTotal(a: string, b: string)
    ensures a == b || Less(a, b) || Less(b, a)
  {
    if a != "" && b != "" && a[0] == b[0] {
      LessTotal(a[1..], b[1..]);
      assert a == [a[0]] + a[1..] && b == [b[0]] + b[1..];
    }
  }

  ghost predicate Ascending(texts: seq<string>) {
    forall i, j :: 0 <= i < j < |texts| ==> Less(texts[i], texts[j])
  }

  ghost predicate Lists(texts: seq<string>, members: set<string>) {
    Ascending(texts) && (forall t :: t in texts <==> t in members)
  }

  /** A set has only one ascending listing. */
  lemma {:induction false} ListingUnique(a: seq<string>, b: seq<string>, members: set<string>)
    requires Lists(a, members) && Lists(b, members)
    ensures a == b
    decreases |a|
  {
    ListingEmpty(a, members);
    ListingEmpty(b, members);
    if members != {} {
      HeadIsLeast(a, b, members);
      TailLists(a, members);
      TailLists(b, members);
      ListingUnique(a[1..], b[1..], members - {a[0]});
      assert a == [a[0]] + a[1..] && b == [b[0]] + b[1..];
    }
  }

  lemma ListingEmpty(texts: seq<string>, members: set<string>)
    requires Lists(texts, members)
    ensures texts == [] <==> members == {}
  {
    if texts != [] {
      assert texts[0] in members;
    }
    if members != {} {
      var t :| t in members;
      assert t in texts;
    }
  }

  lemma HeadIsLeast(a: seq<string>, b: seq<string>, members: set<string>)
    requires Lists(a, members) && Lists(b, members)
    requires a != [] && b != []
    ensures a[0] == b[0]
  {
    assert a[0] in members && b[0] in members;
    var i :| 0 <= i < |b| && b[i] == a[0];
    var j :| 0 <= j < |a| && a[j] == b[0];
    if i > 0 && j > 0 {
      LessTransitive(a[0], b[0], a[0]);
      LessIrreflexive(a[0]);
    }
  }

  lemma TailLists(a: seq<string>, members: set<string>)
    requires Lists(a, members) && a != []
    ensures Lists(a[1..], members - {a[0]})
  {
    forall t
      ensures t in a[1..] <==> t in members - {a[0]}
    {
      if t in a[1..] {
        var i :| 0 <= i < |a| - 1 && a[1..][i] == t;
        LessIrreflexive(t);
        assert t in a && t != a[0];
      }
      if t in members - {a[0]} {
        var i :| 0 <= i < |a| && a[i] == t;
        assert a[1..][i - 1] == t;
      }
    }
  }

  /** Insertion sort of a listing without repetitions. */
  method SortTexts(texts: seq<string>, ghost members: set<string>) returns (sorted: seq<string>)
    requires forall t :: t in texts <==> t in members
    requires forall i, j :: 0 <= i < j < |texts| ==> texts[i] != texts[j]
    ensures Lists(sorted, members)
  {
    sorted := [];
    for i := 0 to |texts|
      invariant Ascending(sorted)
      invariant forall t :: t in sorted <==> t in texts[..i]
    {
      var at := 0;
      while at < |sorted| && Less(sorted[at], texts[i])
        invariant 0 <= at <= |sorted|
        invariant forall j :: 0 <= j < at ==> Less(sorted[j], texts[i])
      {
        at := at + 1;
      }
      assert texts[i] !in texts[..i];
      InsertKeepsOrder(sorted, at, texts[i]);
      ghost var was := sorted;
      sorted := sorted[..at] + [texts[i]] + sorted[at..];
      forall t
        ensures t in sorted <==> t in texts[..i + 1]
      {
        assert was == was[..at] + was[at..];
        assert texts[..i + 1] == texts[..i] + [texts[i]];
      }
    }
    assert texts[..|texts|] == texts;
  }

  lemma InsertKeepsOrder(sorted: seq<string>, at: nat, t: string)
    requires Ascending(sorted) && at <= |sorted| && t !in sorted
    requires forall j :: 0 <= j < at ==> Less(sorted[j], t)
    requires at < |sorted| ==> !Less(sorted[at], t)
    ensures Ascending(sorted[..at] + [t] + sorted[at..])
  {
    forall j | at <= j < |sorted|
      ensures Less(t, sorted[j])
    {
      LessTotal(t, sorted[at]);
      if j > at {
        LessTransitive(t, sorted[at], sorted[j]);
      }
    }
    var after := sorted[..at] + [t] + sorted[at..];
    forall i, j | 0 <= i < j < |after|
      ensures Less(after[i], after[j])
    {
      if i > at {
        assert after[i] == sorted[i - 1] && after[j] == sorted[j - 1];
      } else if j > at {
        assert after[j] == sorted[j - 1];
      }
    }
  }

  ghost predicate IsLeast(least: string, members: set<string>) {
    least in members && forall t :: t in members && t != least ==> Less(least, t)
  }

  /** The ascending listing of a set. */
  ghost function Listing(members: set<string>): (texts: seq<string>)
    ensures Lists(texts, members)
    decreases |members|
  {
    if members == {} then []
    else
      LeastExists(members);
      var least :| IsLeast(least, members);
      var rest := Listing(members - {least});
      assert members == (members - {least}) + {least};
      [least] + rest
  }

  lemma {:induction false} LeastExists(members: set<string>)
    requires members != {}
    ensures exists least :: IsLeast(least, members)
    decreases |members|
  {
    var x :| x in members;
    var rest := members - {x};
    if rest == {} {
      assert members == {x};
      assert IsLeast(x, members);
    } else {
      LeastExists(rest);
      var y :| IsLeast(y, rest);
      LessTotal(x, y);
      if Less(x, y) {
        forall t | t in members && t != x && t != y
          ensures Less(x, t)
        {
          LessTransitive(x, y, t);
        }
        assert IsLeast(x, members);
      } else {
        assert IsLeast(y, members);
      }
    }
  }
}
