/**
  Pure specification of how a scraped page accumulates names
  (fantasy_name_data/data_scraper.py): the merge that `Page.update_names`
  performs, the collision count it returns, the text clean-up done by
  `Page.fetch_names`, and the history of several merges in a row.
*/
module Names {

  /** No value occurs twice in `s`. */
  predicate NoDup<T(==)>(s: seq<T>) {
    forall i, j :: 0 <= i < j < |s| ==> s[i] != s[j]
  }

  /** `names` after the items of `snapshot` have been merged one by one, in order:
      an item already present is skipped, a new one is appended. */
  function Merged(names: seq<string>, snapshot: seq<string>): seq<string>
    decreases |snapshot|
  {
    if snapshot == [] then names
    else
      var before := Merged(names, snapshot[..|snapshot| - 1]);
      var x := snapshot[|snapshot| - 1];
      if x in before then before else before + [x]
  }

  /** How many items of `snapshot` were already present when their turn came. */
  function Collisions(names: seq<string>, snapshot: seq<string>): nat
    decreases |snapshot|
  {
    if snapshot == [] then 0
    else
      var prefix := snapshot[..|snapshot| - 1];
      Collisions(names, prefix) + (if snapshot[|snapshot| - 1] in Merged(names, prefix) then 1 else 0)
  }

  /** Index of the first occurrence of `x` in `s`. */
  function FirstIndex(s: seq<string>, x: string): (i: nat)
    requires x in s
    ensures i < |s| && s[i] == x && x !in s[..i]
  {
    if s[0] == x then 0 else 1 + FirstIndex(s[1..], x)
  }

  lemma {:induction false} FirstIndexSnoc(s: seq<string>, z: string, x: string)
    requires x in s
    ensures FirstIndex(s + [z], x) == FirstIndex(s, x)
  {
    if s[0] != x {
      assert (s + [z])[1..] == s[1..] + [z];
      FirstIndexSnoc(s[1..], z, x);
    }
  }

  /** Merging only appends: the old list is a prefix of the new one. */
  lemma {:induction false} MergedExtends(names: seq<string>, snapshot: seq<string>)
    ensures |names| <= |Merged(names, snapshot)|
    ensures Merged(names, snapshot)[..|names|] == names
    decreases |snapshot|
  {
    if snapshot != [] {
      MergedExtends(names, snapshot[..|snapshot| - 1]);
    }
  }

  /** The names after a merge are exactly the old names together with the snapshot's items. */
  lemma {:induction false} MergedElements(names: seq<string>, snapshot: seq<string>)
    ensures forall x :: x in Merged(names, snapshot) <==> x in names || x in snapshot
    decreases |snapshot|
  {
    if snapshot != [] {
      var prefix := snapshot[..|snapshot| - 1];
      MergedElements(names, prefix);
      assert snapshot == prefix + [snapshot[|snapshot| - 1]];
    }
  }

  /** A merge into a duplicate-free list leaves it duplicate-free. */
  lemma {:induction false} MergedNoDup(names: seq<string>, snapshot: seq<string>)
    requires NoDup(names)
    ensures NoDup(Merged(names, snapshot))
    decreases |snapshot|
  {
    if snapshot != [] {
      MergedNoDup(names, snapshot[..|snapshot| - 1]);
    }
  }

  /** Every snapshot item is either counted as a collision or appended, never both:
      so the count lies between 0 and the snapshot's length. */
  lemma {:induction false} CollisionsPlusAppended(names: seq<string>, snapshot: seq<string>)
    ensures Collisions(names, snapshot) + (|Merged(names, snapshot)| - |names|) == |snapshot|
    ensures Collisions(names, snapshot) <= |snapshot|
    decreases |snapshot|
  {
    if snapshot != [] {
      CollisionsPlusAppended(names, snapshot[..|snapshot| - 1]);
      MergedExtends(names, snapshot[..|snapshot| - 1]);
    }
  }

  /** Appended items are new snapshot items, in the order of their first
      occurrence in the snapshot. */
  lemma {:induction false} MergedFirstSeenOrder(names: seq<string>, snapshot: seq<string>)
    ensures |names| <= |Merged(names, snapshot)|
    ensures forall i :: |names| <= i < |Merged(names, snapshot)| ==>
              Merged(names, snapshot)[i] in snapshot && Merged(names, snapshot)[i] !in names
    ensures forall i, j :: |names| <= i < j < |Merged(names, snapshot)| ==>
              FirstIndex(snapshot, Merged(names, snapshot)[i]) < FirstIndex(snapshot, Merged(names, snapshot)[j])
    decreases |snapshot|
  {
    if snapshot != [] {
      var prefix := snapshot[..|snapshot| - 1];
      var x := snapshot[|snapshot| - 1];
      assert snapshot == prefix + [x];
      var before := Merged(names, prefix);
      MergedFirstSeenOrder(names, prefix);
      MergedElements(names, prefix);
      forall y | y in prefix
        ensures FirstIndex(snapshot, y) == FirstIndex(prefix, y)
      {
        FirstIndexSnoc(prefix, x, y);
      }
      if x !in before {
        assert x !in prefix;
        assert FirstIndex(snapshot, x) == |prefix| by {
          assert snapshot[|prefix|] == x;
          assert x !in snapshot[..|prefix|];
        }
      }
    }
  }

  /** An empty snapshot changes nothing and collides with nothing. */
  lemma EmptySnapshot(names: seq<string>)
    ensures Merged(names, []) == names && Collisions(names, []) == 0
  {
  }

  /** An item repeated inside one snapshot collides with its own earlier insertion. */
  lemma RepeatInsideSnapshot()
    ensures Merged([], ["a", "b", "a"]) == ["a", "b"]
    ensures Collisions([], ["a", "b", "a"]) == 1
  {
    assert ["a", "b", "a"][..2] == ["a", "b"];
    assert ["a", "b"][..1] == ["a"];
    assert ["a"][..0] == [];
  }

  // ---------------------------------------------------------------------------
  // Several merges in a row (one per successful fetch)

  /** The page's names after merging each snapshot of `snapshots` in turn. */
  function History(names: seq<string>, snapshots: seq<seq<string>>): seq<string>
    decreases |snapshots|
  {
    if snapshots == [] then names
    else Merged(History(names, snapshots[..|snapshots| - 1]), snapshots[|snapshots| - 1])
  }

  /** The collision count returned by the merge of round `j`. */
  function RoundCollisions(names: seq<string>, snapshots: seq<seq<string>>, j: nat): nat
    requires j < |snapshots|
  {
    Collisions(History(names, snapshots[..j]), snapshots[j])
  }

  /** Merging one snapshot first is the same as starting from the merged list. */
  lemma {:induction false} HistoryCons(names: seq<string>, first: seq<string>, rest: seq<seq<string>>)
    ensures History(names, [first] + rest) == History(Merged(names, first), rest)
    decreases |rest|
  {
    if rest == [] {
      assert ([first] + rest)[..0] == [];
    } else {
      var n := |rest| - 1;
      assert ([first] + rest)[..n + 1] == [first] + rest[..n];
      HistoryCons(names, first, rest[..n]);
    }
  }

  /** Round `k` after one more snapshot at the front is round `k - 1` of the rest,
      started from the merged list. */
  lemma RoundCollisionsCons(names: seq<string>, first: seq<string>, rest: seq<seq<string>>, k: nat)
    requires k <= |rest|
    ensures RoundCollisions(names, [first] + rest, k)
         == if k == 0 then Collisions(names, first) else RoundCollisions(Merged(names, first), rest, k - 1)
  {
    var all := [first] + rest;
    if k == 0 {
      assert all[..0] == [];
    } else {
      assert all[..k] == [first] + rest[..k - 1];
      HistoryCons(names, first, rest[..k - 1]);
    }
  }

  /** Whatever snapshots arrive, the accumulated list never holds a duplicate. */
  lemma {:induction false} HistoryNoDup(names: seq<string>, snapshots: seq<seq<string>>)
    requires NoDup(names)
    ensures NoDup(History(names, snapshots))
    decreases |snapshots|
  {
    if snapshots != [] {
      HistoryNoDup(names, snapshots[..|snapshots| - 1]);
      MergedNoDup(History(names, snapshots[..|snapshots| - 1]), snapshots[|snapshots| - 1]);
    }
  }

  /** One more snapshot item: the step `Merged` and `Collisions` take for it. */
  lemma MergedSnoc(names: seq<string>, snapshot: seq<string>, x: string)
    ensures Merged(names, snapshot + [x])
         == if x in Merged(names, snapshot) then Merged(names, snapshot) else Merged(names, snapshot) + [x]
    ensures Collisions(names, snapshot + [x])
         == Collisions(names, snapshot) + if x in Merged(names, snapshot) then 1 else 0
  {
    assert (snapshot + [x])[..|snapshot|] == snapshot;
  }

  /** Merging a two-item snapshot, worked out. */
  lemma MergedPair(names: seq<string>, x: string, y: string)
    ensures var once := if x in names then names else names + [x];
      && Merged(names, [x, y]) == (if y in once then once else once + [y])
      && Collisions(names, [x, y]) == (if x in names then 1 else 0) + (if y in once then 1 else 0)
  {
    MergedSnoc(names, [], x);
    assert [x, y] == [x] + [y];
    MergedSnoc(names, [x], y);
  }

  /** The three-snapshot run with threshold 2: collisions 0, 1, 2 and the final list. */
  lemma ThreeRoundScenario()
    ensures var snaps := [["Aldric", "Bryn"], ["Bryn", "Corwin"], ["Corwin", "Corwin"]];
      && RoundCollisions([], snaps, 0) == 0
      && RoundCollisions([], snaps, 1) == 1
      && RoundCollisions([], snaps, 2) == 2
      && History([], snaps) == ["Aldric", "Bryn", "Corwin"]
  {
    var snaps := [["Aldric", "Bryn"], ["Bryn", "Corwin"], ["Corwin", "Corwin"]];
    assert snaps[..0] == [];
    assert snaps[..1] == [["Aldric", "Bryn"]];
    assert snaps[..2] == [["Aldric", "Bryn"], ["Bryn", "Corwin"]];
    assert snaps[..3] == snaps;
    MergedPair([], "Aldric", "Bryn");
    assert History([], snaps[..1]) == ["Aldric", "Bryn"];
    MergedPair(["Aldric", "Bryn"], "Bryn", "Corwin");
    assert History([], snaps[..2]) == ["Aldric", "Bryn", "Corwin"];
    MergedPair(["Aldric", "Bryn", "Corwin"], "Corwin", "Corwin");
  }

  // ---------------------------------------------------------------------------
  // Clean-up of the serialised child elements (fetch_names)

  /** Python's `s.replace('<br/>', '')`: every non-overlapping occurrence,
      scanning left to right, is removed; the result is not rescanned. */
  function StripBreaks(s: string): string
    decreases |s|
  {
    if |s| < 5 then s
    else if s[..5] == "<br/>" then StripBreaks(s[5..])
    else [s[0]] + StripBreaks(s[1..])
  }

  /** The names kept from the serialised children of the first match:
      each child without its line breaks, empty results dropped. */
  function CleanNames(children: seq<string>): seq<string>
    decreases |children|
  {
    if children == [] then []
    else
      var kept := CleanNames(children[..|children| - 1]);
      var name := StripBreaks(children[|children| - 1]);
      if name != "" then kept + [name] else kept
  }

  /** The snapshot `fetch_names` returns for the list of selector matches:
      empty when nothing matched, otherwise the cleaned children of the first match. */
  function Snapshot(matches: seq<seq<string>>): seq<string> {
    if |matches| > 0 then CleanNames(matches[0]) else []
  }

  /** Removing breaks never lengthens the text. */
  lemma {:induction false} StripBreaksShorter(s: string)
    ensures |StripBreaks(s)| <= |s|
    decreases |s|
  {
    if |s| >= 5 {
      if s[..5] == "<br/>" { StripBreaksShorter(s[5..]); } else { StripBreaksShorter(s[1..]); }
    }
  }

  /** Text without a '<' is left as it is. */
  lemma {:induction false} StripBreaksPlainText(s: string)
    requires '<' !in s
    ensures StripBreaks(s) == s
    decreases |s|
  {
    if |s| >= 5 {
      assert s[0] == s[..5][0];
      StripBreaksPlainText(s[1..]);
    }
  }

  /** Children without markup pass through the clean-up unchanged. */
  lemma {:induction false} CleanNamesPlain(children: seq<string>)
    requires forall i :: 0 <= i < |children| ==> '<' !in children[i] && children[i] != ""
    ensures CleanNames(children) == children
    decreases |children|
  {
    if children != [] {
      CleanNamesPlain(children[..|children| - 1]);
      StripBreaksPlainText(children[|children| - 1]);
    }
  }

  /** A child that is nothing but a line break cleans to the empty string, and
      a break directly followed by text is removed on its own. */
  lemma StripBreaksTag()
    ensures StripBreaks("<br/>") == ""
    ensures StripBreaks("<br/>/>") == "/>"
  {
    assert "<br/>/>"[5..] == "/>";
  }

  /** One pass only: a tag that the removal itself forms is left in place. */
  lemma StripBreaksSinglePass()
    ensures StripBreaks("<br<br/>/>") == "<br/>"
  {
    var s := "<br<br/>/>";
    assert s[..5][3] != "<br/>"[3];
    assert s[1..][..5][2] != "<br/>"[2];
    assert s[2..][..5][1] != "<br/>"[1];
    assert s[3..] == "<br/>/>";
    StripBreaksTag();
    assert StripBreaks(s[2..]) == "r/>";
    assert StripBreaks(s[1..]) == "br/>";
  }

  /** `CleanNames` keeps, in child order, exactly the children whose cleaned
      text is non-empty: `idx` lists which children, strictly increasing. */
  lemma {:induction false} CleanNamesSelects(children: seq<string>) returns (idx: seq<nat>)
    ensures |idx| == |CleanNames(children)| <= |children|
    ensures forall k :: 0 <= k < |idx| ==>
              idx[k] < |children| && CleanNames(children)[k] == StripBreaks(children[idx[k]])
    ensures forall k, l :: 0 <= k < l < |idx| ==> idx[k] < idx[l]
    ensures forall i :: 0 <= i < |children| ==> (i in idx <==> StripBreaks(children[i]) != "")
    decreases |children|
  {
    if children == [] {
      idx := [];
    } else {
      var n := |children| - 1;
      var prefix := children[..n];
      var before := CleanNamesSelects(prefix);
      var kept := CleanNames(prefix);
      var name := StripBreaks(children[n]);
      assert forall i :: 0 <= i < n ==> children[i] == prefix[i];
      if name != "" {
        idx := before + [n];
        assert CleanNames(children) == kept + [name];
        forall k | 0 <= k < |idx|
          ensures idx[k] < |children| && CleanNames(children)[k] == StripBreaks(children[idx[k]])
        {
          if k < |before| {
            assert idx[k] == before[k] && CleanNames(children)[k] == kept[k];
          }
        }
      } else {
        idx := before;
      }
      forall i | 0 <= i < |children|
        ensures i in idx <==> StripBreaks(children[i]) != ""
      {
        if i < n {
          assert i in idx <==> i in before;
        }
      }
    }
  }

  /** No empty name is ever returned. */
  lemma {:induction false} CleanNamesNonEmpty(children: seq<string>)
    ensures "" !in CleanNames(children)
    decreases |children|
  {
    if children != [] {
      CleanNamesNonEmpty(children[..|children| - 1]);
    }
  }
}
