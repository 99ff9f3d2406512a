/** Deleting aged date directories (main.py, `monitor`, "Delete old data"):
    walk the sorted listing, removing each path below the boundary path, and
    stop at the first one that is not. */
module Retention {
  import opened Text

  /** Ascending by Python's string order, as after `list.sort()`. */
  predicate Sorted(listing: seq<string>) {
    forall i, j :: 0 <= i < j < |listing| ==> !StrLess(listing[j], listing[i])
  }

  /** Where the scan stops: the first path not below the boundary, or the
      length of the listing when every path is below it. */
  function FirstKept(listing: seq<string>, boundary: string): (k: nat)
    ensures k <= |listing|
    ensures forall i :: 0 <= i < k ==> StrLess(listing[i], boundary)
    ensures k < |listing| ==> !StrLess(listing[k], boundary)
  {
    if listing == [] || !StrLess(listing[0], boundary) then 0
    else 1 + FirstKept(listing[1..], boundary)
  }

  /** The loop at main.py 98-102: returns the paths removed, in the order
      `rmtree` is called on them. */
  method RemoveBefore(listing: seq<string>, boundary: string) returns (removed: seq<string>)
    ensures removed == listing[..FirstKept(listing, boundary)]
  {
    removed := [];
    var i := 0;
    while i < |listing|
      invariant i <= FirstKept(listing, boundary)
      invariant removed == listing[..i]
    {
      var p := listing[i];
      if !StrLess(p, boundary) {
        break;
      }
      removed := removed + [p];
      i := i + 1;
    }
  }

  /** On a sorted listing the scan removes exactly the paths below the
      boundary: everything after the stopping point is at or above it. */
  lemma {:induction false} RemovesExactlyOlder(listing: seq<string>, boundary: string)
    requires Sorted(listing)
    ensures forall i :: 0 <= i < |listing| ==>
      (i < FirstKept(listing, boundary) <==> StrLess(listing[i], boundary))
  {
    var k := FirstKept(listing, boundary);
    forall i | k <= i < |listing| ensures !StrLess(listing[i], boundary) {
      if i > k {
        StrLeTransitive(boundary, listing[k], listing[i]);
      }
    }
  }

  /** With directories named by an order-preserving day-to-path map, the
      directories removed are exactly the days before the boundary day. */
  lemma RemovesDaysBefore(dayPath: int -> string, days: seq<int>, boundaryDay: int)
    requires forall a, b :: a < b ==> StrLess(dayPath(a), dayPath(b))
    requires forall i, j :: 0 <= i < j < |days| ==> days[i] < days[j]
    ensures var listing := seq(|days|, i requires 0 <= i < |days| => dayPath(days[i]));
      forall i :: 0 <= i < |days| ==>
        (i < FirstKept(listing, dayPath(boundaryDay)) <==> days[i] < boundaryDay)
  {
    var listing := seq(|days|, i requires 0 <= i < |days| => dayPath(days[i]));
    var b := dayPath(boundaryDay);
    forall i, j | 0 <= i < j < |listing| ensures !StrLess(listing[j], listing[i]) {
      StrLessAsymmetric(listing[i], listing[j]);
    }
    RemovesExactlyOlder(listing, b);
    forall i | 0 <= i < |days| ensures StrLess(listing[i], b) <==> days[i] < boundaryDay {
      if days[i] == boundaryDay {
        StrLessIrreflexive(b);
      } else if days[i] > boundaryDay {
        if StrLess(listing[i], b) {
          StrLessAsymmetric(b, listing[i]);
        }
      }
    }
  }

  /** Directories 20240101 to 20240110 with boundary 20240105 (a five-day
      window evaluated on 20240110): the first four are removed. */
  lemma TenDayExample()
    ensures FirstKept(["20240101", "20240102", "20240103", "20240104", "20240105",
                       "20240106", "20240107", "20240108", "20240109", "20240110"], "20240105") == 4
  {
    var listing := ["20240101", "20240102", "20240103", "20240104", "20240105",
                    "20240106", "20240107", "20240108", "20240109", "20240110"];
    var b := "20240105";
    forall i | 0 <= i < 4 ensures StrLess(listing[i], b) {
      StrLessAt(listing[i], b, 7);
    }
    StrLessIrreflexive(b);
    assert listing[4] == b;
    assert listing[1..][1..][1..][1..] == listing[4..];
  }
}
