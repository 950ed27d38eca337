/**
 * The keyed data join of `update` in src/index.js.
 *
 * The circles in the plot group are matched against the new data by the
 * key d => d.Place: old circles whose key is absent exit and are removed,
 * keys without a circle enter and get a new circle, keys present in both
 * are updated in place. Every entering and updated circle is then given
 * the attributes of Marks.MarkerOf.
 *
 * The label chain appends one text element per ENTERING record only and
 * merges that with the CIRCLE update selection, so a re-render writes the
 * label attributes (fill, x, dy, text) onto the updated circles while the
 * existing text elements are neither moved nor removed.
 */
module Join {
  import opened Wrappers
  import opened Marks

  /**
   * A circle element: the datum bound to it, the attributes the circle
   * chain gives it, and the label attributes the label chain writes onto
   * it when it is in the update selection.
   */
  datatype Circle = Circle(datum: Record, marker: MarkerAttrs, labelAttrs: Option<LabelAttrs>)

  /** The three groups of a join, as sets of keys. */
  datatype Groups = Groups(enter: set<int>, update: set<int>, exit: set<int>)

  /** The keys of a data array: every record's Place, and nothing else. */
  function PlacesOf(data: seq<Record>): (keys: set<int>)
    ensures forall i :: 0 <= i < |data| ==> data[i].place in keys
  {
    if |data| == 0 then {}
    else PlacesOf(data[..|data| - 1]) + {data[|data| - 1].place}
  }

  /** No two records share a Place. */
  predicate UniquePlaces(data: seq<Record>)
  {
    forall i, j :: 0 <= i < j < |data| ==> data[i].place != data[j].place
  }

  /**
   * data[0].Seconds, the x anchor. With no data no attribute is ever
   * computed, so the value given for an empty array is never used.
   */
  function Anchor(data: seq<Record>): int
  {
    if |data| == 0 then 0 else data[0].seconds
  }

  /**
   * The join of the keys already rendered with new data: the groups are
   * pairwise disjoint, enter and update together are the new keys, and
   * update and exit together are the old ones.
   */
  function JoinOf(rendered: set<int>, data: seq<Record>): (g: Groups)
    ensures g.enter !! g.update && g.enter !! g.exit && g.update !! g.exit
    ensures g.enter + g.update == PlacesOf(data)
    ensures g.update + g.exit == rendered
  {
    var keys := PlacesOf(data);
    Groups(keys - rendered, rendered * keys, rendered - keys)
  }

  /** The circle a record ends with: a new one has no label attributes on it. */
  function RenderedCircle(d: Record, anchor: int, existed: bool): Circle
  {
    Circle(d, MarkerOf(d, anchor), if existed then Some(LabelOf(d, anchor)) else None)
  }

  /**
   * A record's circle after the circle chain: the updated circle of a
   * rendered key keeps the label attributes it had; a new one has none.
   */
  function Drawn(d: Record, prior: map<int, Circle>, rendered: set<int>, anchor: int): Circle
  {
    Circle(d, MarkerOf(d, anchor), if d.place in rendered && d.place in prior then prior[d.place].labelAttrs else None)
  }

  /** The text elements appended for the entering records, in data order. */
  function EnteringLabels(data: seq<Record>, rendered: set<int>, anchor: int): seq<LabelAttrs>
  {
    if |data| == 0 then []
    else
      var last := data[|data| - 1];
      EnteringLabels(data[..|data| - 1], rendered, anchor)
        + (if last.place in rendered then [] else [LabelOf(last, anchor)])
  }

  lemma PlacesOfPrefix(data: seq<Record>, i: nat)
    requires i < |data|
    ensures PlacesOf(data[..i + 1]) == PlacesOf(data[..i]) + {data[i].place}
  {
    assert data[..i + 1][..i] == data[..i];
  }

  lemma PlacesOfAll(data: seq<Record>)
    ensures PlacesOf(data[..|data|]) == PlacesOf(data)
  {
    assert data[..|data|] == data;
  }

  /** Every key of a data array is the Place of one of its records. */
  lemma {:induction false} PlacesOfOnly(data: seq<Record>, k: int)
    requires k in PlacesOf(data)
    ensures exists i :: 0 <= i < |data| && data[i].place == k
  {
    var n := |data| - 1;
    if k != data[n].place {
      PlacesOfOnly(data[..n], k);
      var i :| 0 <= i < n && data[..n][i].place == k;
      assert data[i] == data[..n][i];
    }
  }

  /** A key that is no record's Place is not a key of the array. */
  lemma {:induction false} PlacesOfNot(data: seq<Record>, k: int)
    requires forall i :: 0 <= i < |data| ==> data[i].place != k
    ensures k !in PlacesOf(data)
  {
    if |data| > 0 {
      var n := |data| - 1;
      forall i | 0 <= i < n ensures data[..n][i].place != k {
        assert data[..n][i] == data[i];
      }
      PlacesOfNot(data[..n], k);
    }
  }

  /** With unique places, a record's key is not among the keys before it. */
  lemma FreshPlace(data: seq<Record>, i: nat)
    requires UniquePlaces(data) && i < |data|
    ensures data[i].place !in PlacesOf(data[..i])
  {
    forall m | 0 <= m < i ensures data[..i][m].place != data[i].place {
      assert data[..i][m] == data[m];
    }
    PlacesOfNot(data[..i], data[i].place);
  }

  lemma UniquePrefix(data: seq<Record>, n: nat)
    requires UniquePlaces(data) && n <= |data|
    ensures UniquePlaces(data[..n])
  {
    var p := data[..n];
    forall i, j | 0 <= i < j < |p| ensures p[i].place != p[j].place {
      assert p[i] == data[i] && p[j] == data[j];
    }
  }

  /** With unique places there is exactly one circle key per record. */
  lemma {:induction false} UniquePlacesCount(data: seq<Record>)
    requires UniquePlaces(data)
    ensures |PlacesOf(data)| == |data|
  {
    if |data| > 0 {
      var n := |data| - 1;
      var p := data[..n];
      UniquePrefix(data, n);
      UniquePlacesCount(p);
      PlacesOfPrefix(data, n);
      FreshPlace(data, n);
      PlacesOfAll(data);
    }
  }

  /** Keys already rendered get no new label. */
  lemma {:induction false} NoLabelsForRendered(data: seq<Record>, rendered: set<int>, anchor: int)
    requires PlacesOf(data) <= rendered
    ensures EnteringLabels(data, rendered, anchor) == []
  {
    if |data| > 0 {
      var n := |data| - 1;
      PlacesOfPrefix(data, n);
      PlacesOfAll(data);
      NoLabelsForRendered(data[..n], rendered, anchor);
    }
  }

  /** The entering keys of data, from those of its prefix. */
  lemma EnteringKeysStep(data: seq<Record>, rendered: set<int>)
    requires UniquePlaces(data) && |data| > 0
    ensures data[|data| - 1].place !in PlacesOf(data[..|data| - 1]) - rendered
    ensures data[|data| - 1].place in rendered ==>
      PlacesOf(data) - rendered == PlacesOf(data[..|data| - 1]) - rendered
    ensures data[|data| - 1].place !in rendered ==>
      PlacesOf(data) - rendered == (PlacesOf(data[..|data| - 1]) - rendered) + {data[|data| - 1].place}
  {
    var n := |data| - 1;
    FreshPlace(data, n);
  }

  /** Exactly one text element is appended per entering key. */
  lemma {:induction false} OneLabelPerEnteringKey(data: seq<Record>, rendered: set<int>, anchor: int)
    requires UniquePlaces(data)
    ensures |EnteringLabels(data, rendered, anchor)| == |PlacesOf(data) - rendered|
  {
    if |data| > 0 {
      var n := |data| - 1;
      var p, k := data[..n], data[n].place;
      UniquePrefix(data, n);
      OneLabelPerEnteringKey(p, rendered, anchor);
      EnteringKeysStep(data, rendered);
      EnteringLabelsLength(data, rendered, anchor);
      if k !in rendered {
        CountFresh(PlacesOf(p) - rendered, k);
      }
    }
  }

  /** The last record adds one label when it enters and none otherwise. */
  lemma EnteringLabelsLength(data: seq<Record>, rendered: set<int>, anchor: int)
    requires |data| > 0
    ensures |EnteringLabels(data, rendered, anchor)| == |EnteringLabels(data[..|data| - 1], rendered, anchor)|
      + (if data[|data| - 1].place in rendered then 0 else 1)
  {
  }

  lemma CountFresh(keys: set<int>, k: int)
    requires k !in keys
    ensures |keys + {k}| == |keys| + 1
  {
  }

  /** Every entering record gets its label. */
  lemma {:induction false} EnteringRecordLabelled(data: seq<Record>, rendered: set<int>, anchor: int, i: nat)
    requires i < |data| && data[i].place !in rendered
    ensures LabelOf(data[i], anchor) in EnteringLabels(data, rendered, anchor)
  {
    var n := |data| - 1;
    EnteringStep(data, rendered, anchor, n);
    assert data[..n + 1] == data;
    if i < n {
      EnteringRecordLabelled(data[..n], rendered, anchor, i);
      assert data[..n][i] == data[i];
    }
  }

  /** Every label appended belongs to an entering record. */
  lemma {:induction false} LabelOfEnteringRecord(data: seq<Record>, rendered: set<int>, anchor: int, l: LabelAttrs)
    requires l in EnteringLabels(data, rendered, anchor)
    ensures exists i :: 0 <= i < |data| && data[i].place !in rendered && l == LabelOf(data[i], anchor)
  {
    var n := |data| - 1;
    EnteringStep(data, rendered, anchor, n);
    assert data[..n + 1] == data;
    if l in EnteringLabels(data[..n], rendered, anchor) {
      LabelOfEnteringRecord(data[..n], rendered, anchor, l);
      var i :| 0 <= i < n && data[..n][i].place !in rendered && l == LabelOf(data[..n][i], anchor);
      assert data[..n][i] == data[i];
    } else {
      assert data[n].place !in rendered && l == LabelOf(data[n], anchor);
    }
  }

  /** A second join with the same data: nothing enters or exits. */
  lemma RerenderGroups(data: seq<Record>)
    ensures JoinOf(PlacesOf(data), data) == Groups({}, PlacesOf(data), {})
  {
  }

  /** Rendered {1, 2, 3} joined with places [2, 3, 4]. */
  lemma JoinExample(a: Record, b: Record, c: Record)
    requires a.place == 2 && b.place == 3 && c.place == 4
    ensures JoinOf({1, 2, 3}, [a, b, c]) == Groups({4}, {2, 3}, {1})
  {
    var data := [a, b, c];
    assert data[..0] == [] && data[..3] == data;
    PlacesOfPrefix(data, 0);
    PlacesOfPrefix(data, 1);
    PlacesOfPrefix(data, 2);
    assert PlacesOf(data) == {2, 3, 4};
  }

  /**
   * The circles after the circle chain has run over `ds`: each record's
   * key now holds Drawn for it, every other key is untouched.
   */
  function CircleChain(prior: map<int, Circle>, ds: seq<Record>, rendered: set<int>, anchor: int): map<int, Circle>
  {
    if |ds| == 0 then prior
    else
      var d := ds[|ds| - 1];
      CircleChain(prior, ds[..|ds| - 1], rendered, anchor)[d.place := Drawn(d, prior, rendered, anchor)]
  }

  /**
   * The circles after the label chain has run over `ds`: the label
   * attributes are written on the circle of each record whose key was
   * rendered; no other circle changes.
   */
  function LabelChain(prior: map<int, Circle>, ds: seq<Record>, rendered: set<int>, anchor: int): map<int, Circle>
  {
    if |ds| == 0 then prior
    else
      var d := ds[|ds| - 1];
      var m := LabelChain(prior, ds[..|ds| - 1], rendered, anchor);
      if d.place in rendered && d.place in prior
      then m[d.place := prior[d.place].(labelAttrs := Some(LabelOf(d, anchor)))]
      else m
  }

  /** The circle chain over ds leaves every key outside ds as it was. */
  lemma {:induction false} CircleChainFrame(prior: map<int, Circle>, ds: seq<Record>, rendered: set<int>, anchor: int, k: int)
    requires k !in PlacesOf(ds)
    ensures (k in CircleChain(prior, ds, rendered, anchor)) == (k in prior)
    ensures k in prior ==> CircleChain(prior, ds, rendered, anchor)[k] == prior[k]
  {
    if |ds| > 0 {
      CircleChainFrame(prior, ds[..|ds| - 1], rendered, anchor, k);
    }
  }

  /** The circle chain adds exactly the keys of ds. */
  lemma {:induction false} CircleChainKeys(prior: map<int, Circle>, ds: seq<Record>, rendered: set<int>, anchor: int)
    ensures CircleChain(prior, ds, rendered, anchor).Keys == prior.Keys + PlacesOf(ds)
  {
    if |ds| > 0 {
      CircleChainKeys(prior, ds[..|ds| - 1], rendered, anchor);
    }
  }

  /** The label chain over ds leaves every key outside ds as it was, and adds or removes none. */
  lemma {:induction false} LabelChainFrame(prior: map<int, Circle>, ds: seq<Record>, rendered: set<int>, anchor: int, k: int)
    ensures LabelChain(prior, ds, rendered, anchor).Keys == prior.Keys
    ensures k !in PlacesOf(ds) && k in prior ==> LabelChain(prior, ds, rendered, anchor)[k] == prior[k]
  {
    if |ds| > 0 {
      LabelChainFrame(prior, ds[..|ds| - 1], rendered, anchor, k);
    }
  }

  /** The circle chain over ds gives the keys of ds their Drawn circle and leaves the rest alone. */
  lemma {:induction false} CircleChainAt(prior: map<int, Circle>, ds: seq<Record>, rendered: set<int>, anchor: int, k: int)
    requires UniquePlaces(ds)
    ensures var m := CircleChain(prior, ds, rendered, anchor);
      && (k in m <==> k in prior || k in PlacesOf(ds))
      && (k !in PlacesOf(ds) && k in prior ==> m[k] == prior[k])
      && (forall i :: 0 <= i < |ds| && ds[i].place == k ==> m[k] == Drawn(ds[i], prior, rendered, anchor))
  {
    if |ds| > 0 {
      var n := |ds| - 1;
      UniquePrefix(ds, n);
      CircleChainAt(prior, ds[..n], rendered, anchor, k);
      PlacesOfPrefix(ds, n);
      PlacesOfAll(ds);
      FreshPlace(ds, n);
      forall i | 0 <= i < |ds| && ds[i].place == k
        ensures CircleChain(prior, ds, rendered, anchor)[k] == Drawn(ds[i], prior, rendered, anchor)
      {
        if i < n {
          assert ds[..n][i] == ds[i];
          assert ds[n].place != k;
        }
      }
    }
  }

  /** The label chain over ds changes exactly the circles of the rendered keys of ds. */
  lemma {:induction false} LabelChainAt(prior: map<int, Circle>, ds: seq<Record>, rendered: set<int>, anchor: int, k: int)
    requires UniquePlaces(ds)
    ensures var m := LabelChain(prior, ds, rendered, anchor);
      && m.Keys == prior.Keys
      && (k !in PlacesOf(ds) && k in prior ==> m[k] == prior[k])
      && (forall i :: 0 <= i < |ds| && ds[i].place == k && k in prior ==>
            m[k] == if k in rendered then prior[k].(labelAttrs := Some(LabelOf(ds[i], anchor))) else prior[k])
  {
    if |ds| > 0 {
      var n := |ds| - 1;
      UniquePrefix(ds, n);
      LabelChainAt(prior, ds[..n], rendered, anchor, k);
      PlacesOfPrefix(ds, n);
      PlacesOfAll(ds);
      FreshPlace(ds, n);
      forall i | 0 <= i < |ds| && ds[i].place == k && k in prior
        ensures LabelChain(prior, ds, rendered, anchor)[k]
          == if k in rendered then prior[k].(labelAttrs := Some(LabelOf(ds[i], anchor))) else prior[k]
      {
        if i < n {
          assert ds[..n][i] == ds[i];
          assert ds[n].place != k;
        }
      }
    }
  }

  /** One more record through the label list. */
  lemma EnteringStep(data: seq<Record>, rendered: set<int>, anchor: int, i: nat)
    requires i < |data|
    ensures EnteringLabels(data[..i + 1], rendered, anchor)
      == EnteringLabels(data[..i], rendered, anchor) + (if data[i].place in rendered then [] else [LabelOf(data[i], anchor)])
  {
    assert data[..i + 1][..i] == data[..i];
  }

  /** One more record through the label chain. */
  lemma LabelStep(prior: map<int, Circle>, data: seq<Record>, rendered: set<int>, anchor: int, i: nat)
    requires i < |data|
    ensures var d := data[i];
      LabelChain(prior, data[..i + 1], rendered, anchor)
        == if d.place in rendered && d.place in prior
           then LabelChain(prior, data[..i], rendered, anchor)[d.place := prior[d.place].(labelAttrs := Some(LabelOf(d, anchor)))]
           else LabelChain(prior, data[..i], rendered, anchor)
  {
    assert data[..i + 1][..i] == data[..i];
  }

  /** One more record through the circle chain. */
  lemma CircleStep(prior: map<int, Circle>, data: seq<Record>, rendered: set<int>, anchor: int, i: nat)
    requires i < |data|
    ensures CircleChain(prior, data[..i + 1], rendered, anchor)
      == CircleChain(prior, data[..i], rendered, anchor)[data[i].place := Drawn(data[i], prior, rendered, anchor)]
  {
    assert data[..i + 1][..i] == data[..i];
  }

  /** What the circle chain over the whole data array leaves behind. */
  lemma CircleChainResult(prior: map<int, Circle>, data: seq<Record>, rendered: set<int>, anchor: int)
    requires UniquePlaces(data)
    requires prior.Keys <= PlacesOf(data)
    ensures var m := CircleChain(prior, data, rendered, anchor);
      && m.Keys == PlacesOf(data)
      && (forall k :: k in m ==> m[k].datum.place == k)
      && (forall i :: 0 <= i < |data| ==> m[data[i].place] == Drawn(data[i], prior, rendered, anchor))
  {
    var m := CircleChain(prior, data, rendered, anchor);
    forall k ensures k in m <==> k in PlacesOf(data) {
      CircleChainAt(prior, data, rendered, anchor, k);
    }
    forall k | k in m ensures m[k].datum.place == k {
      CircleChainAt(prior, data, rendered, anchor, k);
      PlacesOfOnly(data, k);
      var j :| 0 <= j < |data| && data[j].place == k;
    }
    forall i | 0 <= i < |data| ensures m[data[i].place] == Drawn(data[i], prior, rendered, anchor) {
      CircleChainAt(prior, data, rendered, anchor, data[i].place);
    }
  }

  /** What the label chain over the whole data array leaves behind. */
  lemma LabelChainResult(prior: map<int, Circle>, data: seq<Record>, rendered: set<int>, anchor: int)
    requires UniquePlaces(data)
    requires prior.Keys == PlacesOf(data)
    requires forall k :: k in prior ==> prior[k].datum.place == k
    ensures var m := LabelChain(prior, data, rendered, anchor);
      && m.Keys == PlacesOf(data)
      && (forall k :: k in m ==> m[k].datum.place == k)
      && (forall i :: 0 <= i < |data| ==>
            m[data[i].place] == if data[i].place in rendered
              then prior[data[i].place].(labelAttrs := Some(LabelOf(data[i], anchor)))
              else prior[data[i].place])
  {
    var m := LabelChain(prior, data, rendered, anchor);
    LabelChainAt(prior, data, rendered, anchor, 0);
    forall k | k in m ensures m[k].datum.place == k {
      LabelChainAt(prior, data, rendered, anchor, k);
      PlacesOfOnly(data, k);
      var j :| 0 <= j < |data| && data[j].place == k;
    }
    forall i | 0 <= i < |data|
      ensures m[data[i].place] == if data[i].place in rendered
        then prior[data[i].place].(labelAttrs := Some(LabelOf(data[i], anchor)))
        else prior[data[i].place]
    {
      LabelChainAt(prior, data, rendered, anchor, data[i].place);
    }
  }

  /**
   * The circle chain followed by the label chain, from the circles left
   * after the exit: one circle per record, filed under its Place, holding
   * RenderedCircle.
   */
  lemma UpdateResult(kept: map<int, Circle>, data: seq<Record>, rendered: set<int>, anchor: int)
    requires UniquePlaces(data)
    requires kept.Keys == rendered * PlacesOf(data)
    requires forall k :: k in kept ==> kept[k].datum.place == k
    ensures var m := LabelChain(CircleChain(kept, data, rendered, anchor), data, rendered, anchor);
      && m.Keys == PlacesOf(data)
      && (forall k :: k in m ==> m[k].datum.place == k)
      && (forall i :: 0 <= i < |data| ==> m[data[i].place] == RenderedCircle(data[i], anchor, data[i].place in rendered))
  {
    var drawn := CircleChain(kept, data, rendered, anchor);
    CircleChainResult(kept, data, rendered, anchor);
    LabelChainResult(drawn, data, rendered, anchor);
    var m := LabelChain(drawn, data, rendered, anchor);
    forall i | 0 <= i < |data|
      ensures m[data[i].place] == RenderedCircle(data[i], anchor, data[i].place in rendered)
    {
      var d := data[i];
      assert drawn[d.place] == Drawn(d, kept, rendered, anchor);
    }
  }

  /** The element state of the plot group that `update` reads and rewrites. */
  class Chart {
    /** The circle elements, by the Place of the datum bound to each. */
    var circles: map<int, Circle>
    /** The rider labels appended by the label chain, in the order they were appended. */
    var labels: seq<LabelAttrs>

    /** Each circle is filed under the key of its own datum. */
    ghost predicate Valid()
      reads this
    {
      forall k :: k in circles ==> circles[k].datum.place == k
    }

    /** The plot group before any data has been loaded: no circles and no rider labels. */
    constructor ()
      ensures Valid() && circles == map[] && labels == []
    {
      circles := map[];
      labels := [];
    }

    /**
     * update(data): join by Place, remove the exit circles, then run the
     * circle chain and the label chain.
     */
    method Update(data: seq<Record>) returns (g: Groups)
      requires Valid() && UniquePlaces(data)
      modifies this
      ensures Valid()
      ensures g == JoinOf(old(circles).Keys, data)
      ensures circles.Keys == PlacesOf(data) && |circles| == |data|
      ensures forall i :: 0 <= i < |data| ==>
        circles[data[i].place] == RenderedCircle(data[i], Anchor(data), data[i].place in old(circles))
      ensures labels == old(labels) + EnteringLabels(data, old(circles).Keys, Anchor(data))
    {
      var rendered := circles.Keys;
      g := JoinOf(rendered, data);
      var anchor := Anchor(data);
      RemoveExit(g.exit);
      ghost var kept := circles;
      assert kept.Keys == rendered * PlacesOf(data);
      DrawCircles(data, rendered, anchor);
      ghost var drawn := circles;
      CircleChainKeys(kept, data, rendered, anchor);
      DrawLabels(data, rendered, anchor);
      assert labels == old(labels) + EnteringLabels(data, rendered, anchor);
      assert circles == LabelChain(drawn, data, rendered, anchor);
      UpdateResult(kept, data, rendered, anchor);
      UniquePlacesCount(data);
      assert |circles| == |circles.Keys|;
    }

    /** EXIT: the circles whose key is in `exit` are removed; the rest stay as they are. */
    method RemoveExit(exit: set<int>)
      requires Valid()
      modifies this`circles
      ensures Valid()
      ensures circles.Keys == old(circles).Keys - exit
      ensures forall k :: k in circles ==> circles[k] == old(circles)[k]
    {
      circles := map k | k in circles && k !in exit :: circles[k];
    }

    /**
     * ENTER merged with UPDATE (the circle chain): a new circle for each
     * record whose key was not rendered; for every record the datum is
     * rebound and the circle attributes rewritten (CircleChain).
     */
    method DrawCircles(data: seq<Record>, rendered: set<int>, anchor: int)
      requires UniquePlaces(data)
      requires rendered * PlacesOf(data) <= circles.Keys
      modifies this`circles
      ensures circles == CircleChain(old(circles), data, rendered, anchor)
    {
      var prior := circles;
      var cs := circles;
      var i := 0;
      while i < |data|
        invariant 0 <= i <= |data|
        invariant cs == CircleChain(prior, data[..i], rendered, anchor)
      {
        var d := data[i];
        CircleStep(prior, data, rendered, anchor, i);
        FreshPlace(data, i);
        CircleChainFrame(prior, data[..i], rendered, anchor, d.place);
        if d.place in rendered {
          cs := cs[d.place := cs[d.place].(datum := d, marker := MarkerOf(d, anchor))];
        } else {
          cs := cs[d.place := Circle(d, MarkerOf(d, anchor), None)];
        }
        i := i + 1;
      }
      assert data[..|data|] == data;
      circles := cs;
    }

    /**
     * The label chain: a text element appended for each record whose key
     * was not rendered; on the circles of the other records the label
     * attributes are written instead (LabelChain).
     */
    method DrawLabels(data: seq<Record>, rendered: set<int>, anchor: int)
      requires UniquePlaces(data)
      requires rendered * PlacesOf(data) <= circles.Keys
      modifies this
      ensures circles == LabelChain(old(circles), data, rendered, anchor)
      ensures labels == old(labels) + EnteringLabels(data, rendered, anchor)
    {
      var prior, before := circles, labels;
      var cs, ls := circles, labels;
      var i := 0;
      while i < |data|
        invariant 0 <= i <= |data|
        invariant cs == LabelChain(prior, data[..i], rendered, anchor)
        invariant ls == before + EnteringLabels(data[..i], rendered, anchor)
      {
        var d := data[i];
        LabelStep(prior, data, rendered, anchor, i);
        EnteringStep(data, rendered, anchor, i);
        FreshPlace(data, i);
        LabelChainFrame(prior, data[..i], rendered, anchor, d.place);
        if d.place in rendered {
          cs := cs[d.place := cs[d.place].(labelAttrs := Some(LabelOf(d, anchor)))];
        } else {
          ls := ls + [LabelOf(d, anchor)];
        }
        i := i + 1;
      }
      assert data[..|data|] == data;
      circles, labels := cs, ls;
    }
  }

  /**
   * Calling update twice with the same data: the second call has an empty
   * enter and exit group, keeps one circle per record and appends no rider label.
   */
  method RenderTwice(chart: Chart, data: seq<Record>) returns (first: Groups, second: Groups)
    requires chart.Valid() && UniquePlaces(data)
    modifies chart
    ensures first == JoinOf(old(chart.circles).Keys, data)
    ensures second == Groups({}, PlacesOf(data), {})
    ensures chart.circles.Keys == PlacesOf(data) && |chart.circles| == |data|
    ensures chart.labels == old(chart.labels) + EnteringLabels(data, old(chart.circles).Keys, Anchor(data))
  {
    first := chart.Update(data);
    ghost var labelsBetween := chart.labels;
    second := chart.Update(data);
    RerenderGroups(data);
    NoLabelsForRendered(data, PlacesOf(data), Anchor(data));
    assert chart.labels == labelsBetween + [];
  }
}
