/** The annotation renderer: a diff against what was last drawn, applied to a surface.

  The surface may hold drawings of its own (the user's), may refuse to draw an annotation,
  and may or may not be able to redraw one in place.
 */
module Annotations {
  import opened Options

  /** `json` is the rest of the annotation, as the text it is compared by. */
  datatype Annotation = Annotation(id: string, version: int, json: string)

  function Ids(list: seq<Annotation>): set<string> {
    set a <- list :: a.id
  }

  predicate Distinct(list: seq<Annotation>) {
    forall i, j :: 0 <= i < j < |list| ==> list[i].id != list[j].id
  }

  // ---------------------------------------------------------------- the diff

  function Added(previous: map<string, Annotation>, next: seq<Annotation>): seq<Annotation> {
    if next == [] then []
    else
      var before := Added(previous, next[..|next| - 1]);
      var a := next[|next| - 1];
      if a.id !in previous then before + [a] else before
  }

  function Updated(previous: map<string, Annotation>, next: seq<Annotation>): seq<Annotation> {
    if next == [] then []
    else
      var before := Updated(previous, next[..|next| - 1]);
      var a := next[|next| - 1];
      if a.id in previous && previous[a.id] != a then before + [a] else before
  }

  method DiffAnnotations(previous: map<string, Annotation>, next: seq<Annotation>)
    returns (added: seq<Annotation>, updated: seq<Annotation>, removed: set<string>)
    ensures added == Added(previous, next) && updated == Updated(previous, next)
    ensures removed == previous.Keys - Ids(next)
  {
    added, updated := [], [];
    for i := 0 to |next|
      invariant added == Added(previous, next[..i]) && updated == Updated(previous, next[..i])
    {
      assert next[..i + 1][..i] == next[..i];
      var a := next[i];
      if a.id !in previous {
        added := added + [a];
      } else if previous[a.id].version != a.version || previous[a.id] != a {
        updated := updated + [a];
      }
    }
    assert next[..|next|] == next;
    removed := set id | id in previous && id !in Ids(next);
  }

  lemma {:induction false} AddedIs(previous: map<string, Annotation>, next: seq<Annotation>, a: Annotation)
    ensures a in Added(previous, next) <==> a in next && a.id !in previous
  {
    if next != [] {
      AddedIs(previous, next[..|next| - 1], a);
      assert next == next[..|next| - 1] + [next[|next| - 1]];
    }
  }

  lemma {:induction false} UpdatedIs(previous: map<string, Annotation>, next: seq<Annotation>, a: Annotation)
    ensures a in Updated(previous, next) <==> a in next && a.id in previous && previous[a.id] != a
  {
    if next != [] {
      UpdatedIs(previous, next[..|next| - 1], a);
      assert next == next[..|next| - 1] + [next[|next| - 1]];
    }
  }

  // ---------------------------------------------------------------- what is on the chart

  /** What the surface can do. */
  datatype Abilities = Abilities(inPlace: bool, refuses: Annotation -> bool)

  /** The annotations last given, and the ids of those that have a drawing. */
  datatype View = View(snapshot: map<string, Annotation>, shown: set<string>)

  /** What the owned drawings show. */
  function Live(v: View): map<string, Annotation> {
    map id | id in v.snapshot && id in v.shown :: v.snapshot[id]
  }

  /** One annotation that changed: redrawn in place, or drawn anew, or refused. */
  function Put(v: View, a: Annotation, can: Abilities): View {
    var drawn := (a.id in v.shown && can.inPlace) || !can.refuses(a);
    View(v.snapshot[a.id := a], if drawn then v.shown + {a.id} else v.shown - {a.id})
  }

  function PutAll(v: View, list: seq<Annotation>, can: Abilities): View {
    if list == [] then v else Put(PutAll(v, list[..|list| - 1], can), list[|list| - 1], can)
  }

  function Forget(v: View, ids: set<string>): View {
    View(v.snapshot - ids, v.shown - ids)
  }

  function Changed(v: View, next: seq<Annotation>): seq<Annotation> {
    Added(v.snapshot, next) + Updated(v.snapshot, next)
  }

  function Apply(v: View, next: seq<Annotation>, can: Abilities): View {
    PutAll(Forget(v, v.snapshot.Keys - Ids(next)), Changed(v, next), can)
  }

  /** Clear and redraw: the reference the incremental form is measured against. */
  function Redraw(next: seq<Annotation>, can: Abilities): View {
    Apply(View(map[], {}), next, can)
  }

  lemma ForgetMore(v: View, some: set<string>, more: set<string>)
    ensures Forget(Forget(v, some), more) == Forget(v, some + more)
  {
  }

  function Unowned(drawings: map<nat, Annotation>, handles: map<string, nat>): map<nat, Annotation> {
    map h | h in drawings && h !in handles.Values :: drawings[h]
  }

  lemma ForgetNothing(v: View)
    ensures Forget(v, {}) == v
  {
  }

  predicate Injective(m: map<string, nat>) {
    forall a, b :: a in m && b in m && m[a] == m[b] ==> a == b
  }

  lemma ValuesWithout(m: map<string, nat>, id: string)
    requires Injective(m) && id in m
    ensures (m - {id}).Values == m.Values - {m[id]} && Injective(m - {id})
  {
    forall h | h in m.Values && h != m[id]
      ensures h in (m - {id}).Values
    {
      var k :| k in m && m[k] == h;
      assert k in m - {id};
    }
  }

  lemma ValuesWith(m: map<string, nat>, id: string, h: nat)
    requires Injective(m) && id !in m && h !in m.Values
    ensures m[id := h].Values == m.Values + {h} && Injective(m[id := h])
  {
    var n := m[id := h];
    assert n[id] == h;
    forall k | k in m.Values
      ensures k in n.Values
    {
      var other :| other in m && m[other] == k;
      assert n[other] == k;
    }
    forall k <- m
      ensures n[k] != h
    {
      assert m[k] in m.Values;
    }
  }

  // ---------------------------------------------------------------- the surface and the renderer

  class Surface {
    const can: Abilities
    var drawings: map<nat, Annotation>
    /** Every handle given out so far is below this. */
    var issued: nat
    /** The annotations whose drawings were created, redrawn or removed, in order. */
    var touched: seq<string>

    constructor (can: Abilities, drawings: map<nat, Annotation>, issued: nat)
      requires forall h <- drawings :: h < issued
      ensures this.can == can && this.drawings == drawings && touched == [] && Valid()
    {
      this.can, this.drawings, this.issued, touched := can, drawings, issued, [];
    }

    ghost predicate Valid()
      reads this
    {
      forall h <- drawings :: h < issued
    }

    method Create(a: Annotation) returns (handle: Option<nat>)
      requires Valid()
      modifies this
      ensures Valid() && touched == old(touched) + [a.id] && old(issued) <= issued
      ensures handle.None? <==> can.refuses(a)
      ensures drawings == if handle.None? then old(drawings) else old(drawings)[handle.value := a]
      ensures handle.Some? ==> handle.value !in old(drawings)
    {
      touched := touched + [a.id];
      if can.refuses(a) {
        return None;
      }
      handle := Some(issued);
      drawings := drawings[issued := a];
      issued := issued + 1;
    }

    method Update(handle: nat, a: Annotation)
      requires Valid() && handle in drawings
      modifies this`drawings, this`touched
      ensures Valid() && touched == old(touched) + [a.id]
      ensures drawings == old(drawings)[handle := a]
    {
      drawings := drawings[handle := a];
      touched := touched + [a.id];
    }

    method Remove(handle: nat)
      requires Valid() && handle in drawings
      modifies this`drawings, this`touched
      ensures Valid() && touched == old(touched) + [old(drawings)[handle].id]
      ensures drawings == old(drawings) - {handle}
    {
      touched := touched + [drawings[handle].id];
      drawings := drawings - {handle};
    }
  }

  class AnnotationRenderer {
    const surface: Surface
    var handles: map<string, nat>
    var snapshot: map<string, Annotation>

    constructor (surface: Surface)
      requires surface.Valid()
      ensures this.surface == surface && Valid() && Seen() == View(map[], {})
      ensures Foreign() == surface.drawings
    {
      this.surface, handles, snapshot := surface, map[], map[];
    }

    /** One live drawing for every handle, showing what the snapshot says, and no handle twice. */
    ghost predicate Valid()
      reads this, surface
    {
      && surface.Valid()
      && handles.Keys <= snapshot.Keys
      && (forall id <- snapshot :: snapshot[id].id == id)
      && (forall id <- handles :: handles[id] in surface.drawings && surface.drawings[handles[id]] == snapshot[id])
      && Injective(handles)
    }

    ghost function Seen(): View
      reads this
    {
      View(snapshot, handles.Keys)
    }

    /** The drawings that are not the renderer's. */
    ghost function Foreign(): map<nat, Annotation>
      reads this, surface
    {
      Unowned(surface.drawings, handles)
    }

    /** Take one drawing off the chart. */
    method Erase(id: string)
      requires Valid() && id in handles
      modifies this`handles, surface
      ensures Valid() && Foreign() == old(Foreign())
      ensures handles == old(handles) - {id}
      ensures surface.touched == old(surface.touched) + [id]
    {
      ValuesWithout(handles, id);
      hide Injective;
      var handle := handles[id];
      assert forall other <- handles - {id} :: handles[other] in (handles - {id}).Values;
      surface.Remove(handle);
      handles := handles - {id};
    }

    /** Draw an annotation that has no drawing. */
    method Draw(a: Annotation)
      requires Valid() && a.id !in handles && (a.id in snapshot ==> snapshot[a.id] == a)
      requires a.id in snapshot
      modifies this`handles, surface
      ensures Valid() && Foreign() == old(Foreign())
      ensures handles.Keys == if surface.can.refuses(a) then old(handles).Keys else old(handles).Keys + {a.id}
      ensures surface.touched == old(surface.touched) + [a.id]
    {
      var handle := surface.Create(a);
      if handle.Some? {
        assert forall id <- handles :: handles[id] != handle.value;
        ValuesWith(handles, a.id, handle.value);
        hide Injective;
        handles := handles[a.id := handle.value];
      }
    }

    /** Redraw an annotation that has a drawing. */
    method RedrawInPlace(a: Annotation)
      requires Valid() && a.id in handles
      modifies this`snapshot, surface
      ensures Valid() && Foreign() == old(Foreign())
      ensures snapshot == old(snapshot)[a.id := a]
      ensures surface.touched == old(surface.touched) + [a.id]
    {
      assert handles[a.id] in handles.Values;
      assert forall id <- handles :: handles[id] == handles[a.id] ==> id == a.id;
      hide Injective;
      surface.Update(handles[a.id], a);
      snapshot := snapshot[a.id := a];
    }

    method PutOne(a: Annotation)
      requires Valid()
      modifies this, surface
      ensures Valid() && Foreign() == old(Foreign())
      ensures Seen() == Put(old(Seen()), a, surface.can)
      ensures old(surface.touched) <= surface.touched
      ensures forall i :: |old(surface.touched)| <= i < |surface.touched| ==> surface.touched[i] == a.id
    {
      hide Injective, Unowned;
      if a.id in handles && surface.can.inPlace {
        RedrawInPlace(a);
      } else {
        if a.id in handles {
          Erase(a.id);
        }
        snapshot := snapshot[a.id := a];
        Draw(a);
      }
    }

    /** Apply only what changed. The ids to remove come in any order. */
    method ApplyIncremental(next: seq<Annotation>)
      requires Valid()
      modifies this, surface
      ensures Valid() && Foreign() == old(Foreign())
      ensures Seen() == Apply(old(Seen()), next, surface.can)
      ensures old(surface.touched) <= surface.touched
      ensures forall i :: |old(surface.touched)| <= i < |surface.touched| ==>
                surface.touched[i] in Ids(Changed(old(Seen()), next)) + (old(snapshot).Keys - Ids(next))
    {
      hide Put, Ids, Added, Updated;
      var added, updated, removed := DiffAnnotations(snapshot, next);
      ForgetAll(removed);
      label Forgotten:
      var changed := added + updated;
      for i := 0 to |changed|
        invariant Valid() && Foreign() == old(Foreign())
        invariant Seen() == PutAll(old@Forgotten(Seen()), changed[..i], surface.can)
        invariant old@Forgotten(surface.touched) <= surface.touched
        invariant forall k :: |old@Forgotten(surface.touched)| <= k < |surface.touched| ==> surface.touched[k] in Ids(changed)
      {
        assert changed[..i + 1][..i] == changed[..i];
        IdOf(changed, i);
        PutOne(changed[i]);
      }
      assert changed[..|changed|] == changed;
    }

    method ForgetAll(ids: set<string>)
      requires Valid()
      modifies this, surface
      ensures Valid() && Foreign() == old(Foreign())
      ensures Seen() == Forget(old(Seen()), ids)
      ensures old(surface.touched) <= surface.touched
      ensures forall i :: |old(surface.touched)| <= i < |surface.touched| ==> surface.touched[i] in ids
    {
      hide *;
      var left := ids;
      ForgetMore(Seen(), {}, {});
      ForgetNothing(Seen());
      assert ids - left == {};
      while left != {}
        invariant left <= ids && Valid() && Foreign() == old(Foreign())
        invariant Seen() == Forget(old(Seen()), ids - left)
        invariant old(surface.touched) <= surface.touched
        invariant forall i :: |old(surface.touched)| <= i < |surface.touched| ==> surface.touched[i] in ids
        decreases |left|
      {
        var id :| id in left;
        ForgetMore(old(Seen()), ids - left, {id});
        assert ids - (left - {id}) == ids - left + {id};
        ForgetOne(id);
        left := left - {id};
      }
      assert ids - {} == ids;
    }

    method ForgetOne(id: string)
      requires Valid()
      modifies this, surface
      ensures Valid() && Foreign() == old(Foreign())
      ensures Seen() == Forget(old(Seen()), {id})
      ensures surface.touched == if id in old(handles) then old(surface.touched) + [id] else old(surface.touched)
    {
      if id in handles {
        Erase(id);
      }
      snapshot := snapshot - {id};
    }

    lemma NothingOwned()
      requires handles.Keys == {}
      ensures handles == map[] && Foreign() == surface.drawings
    {
      assert handles.Values == {};
    }

    /** Everything the renderer drew goes, and nothing else. */
    method Clear()
      requires Valid()
      modifies this, surface
      ensures Valid() && Foreign() == old(Foreign()) == surface.drawings
      ensures Seen() == View(map[], {})
    {
      hide Injective, Unowned;
      var ids := handles.Keys;
      while ids != {}
        invariant handles.Keys == ids && snapshot == old(snapshot)
        invariant Valid() && Foreign() == old(Foreign())
        decreases |ids|
      {
        var id :| id in ids;
        Erase(id);
        ids := ids - {id};
      }
      NothingOwned();
      assert handles.Keys == {};
      handles, snapshot := map[], map[];
    }
  }

  lemma IdOf(list: seq<Annotation>, i: nat)
    requires i < |list|
    ensures list[i].id in Ids(list)
  {
  }

  // ---------------------------------------------------------------- incremental against redraw

  lemma {:induction false} OthersStay(v: View, list: seq<Annotation>, can: Abilities, id: string)
    requires forall a <- list :: a.id != id
    ensures var w := PutAll(v, list, can);
            && (id in w.snapshot <==> id in v.snapshot) && (id in w.snapshot ==> w.snapshot[id] == v.snapshot[id])
            && (id in w.shown <==> id in v.shown)
  {
    if list != [] { OthersStay(v, list[..|list| - 1], can, id); }
  }

  lemma {:induction false} PutOnce(v: View, list: seq<Annotation>, can: Abilities, i: nat)
    requires Distinct(list) && i < |list|
    ensures var w := PutAll(v, list, can);
            var a := list[i];
            && a.id in w.snapshot && w.snapshot[a.id] == a
            && (a.id in w.shown <==> (a.id in v.shown && can.inPlace) || !can.refuses(a))
  {
    var init, last := list[..|list| - 1], list[|list| - 1];
    if i < |list| - 1 {
      PutOnce(v, init, can, i);
    } else {
      OthersStay(v, init, can, last.id);
    }
  }

  lemma {:induction false} AddedDistinct(previous: map<string, Annotation>, next: seq<Annotation>)
    requires Distinct(next)
    ensures Distinct(Added(previous, next)) && Distinct(Updated(previous, next))
  {
    if next != [] {
      var init, a := next[..|next| - 1], next[|next| - 1];
      AddedDistinct(previous, init);
      forall b | b in Added(previous, init) || b in Updated(previous, init)
        ensures b.id != a.id
      {
        AddedIs(previous, init, b);
        UpdatedIs(previous, init, b);
      }
    }
  }

  lemma ChangedDistinct(v: View, next: seq<Annotation>)
    requires Distinct(next)
    ensures Distinct(Changed(v, next))
  {
    hide Added, Updated;
    AddedDistinct(v.snapshot, next);
    var added, updated := Added(v.snapshot, next), Updated(v.snapshot, next);
    forall i, j | 0 <= i < |added| && 0 <= j < |updated|
      ensures added[i].id != updated[j].id
    {
      AddedIs(v.snapshot, next, added[i]);
      UpdatedIs(v.snapshot, next, updated[j]);
    }
  }

  /** A call with distinct ids, annotation by annotation: one that did not change keeps the drawing it
    had or lacked, one that did is shown as it now is unless the surface refuses to create it. */
  lemma ApplyOne(v: View, next: seq<Annotation>, can: Abilities, a: Annotation)
    requires Distinct(next) && a in next
    ensures var w := Apply(v, next, can);
            var same := a.id in v.snapshot && v.snapshot[a.id] == a;
            && a.id in w.snapshot && w.snapshot[a.id] == a
            && (a.id in w.shown <==> if same then a.id in v.shown else (a.id in v.shown && can.inPlace) || !can.refuses(a))
  {
    hide Added, Updated, Put, PutAll;
    var changed := Changed(v, next);
    var kept := Forget(v, v.snapshot.Keys - Ids(next));
    AddedIs(v.snapshot, next, a);
    UpdatedIs(v.snapshot, next, a);
    ChangedDistinct(v, next);
    if a in changed {
      var i :| 0 <= i < |changed| && changed[i] == a;
      PutOnce(kept, changed, can, i);
    } else {
      forall b | b in changed
        ensures b.id != a.id
      {
        ChangedIsNew(v, next, b);
        if b.id == a.id { SameIdSame(next, a, b); }
      }
      OthersStay(kept, changed, can, a.id);
    }
  }

  lemma ChangedIsNew(v: View, next: seq<Annotation>, b: Annotation)
    requires b in Changed(v, next)
    ensures b in next && !(b.id in v.snapshot && v.snapshot[b.id] == b)
  {
    hide Added, Updated;
    AddedIs(v.snapshot, next, b);
    UpdatedIs(v.snapshot, next, b);
  }

  lemma SameIdSame(next: seq<Annotation>, a: Annotation, b: Annotation)
    requires Distinct(next) && a in next && b in next && a.id == b.id
    ensures a == b
  {
  }

  /** Nothing is remembered, and nothing drawn, for an annotation that is not in the list. */
  lemma ApplyForgets(v: View, next: seq<Annotation>, can: Abilities, id: string)
    requires id !in Ids(next) && v.shown <= v.snapshot.Keys
    ensures id !in Apply(v, next, can).snapshot && id !in Apply(v, next, can).shown
  {
    hide Added, Updated, Put, PutAll;
    forall b | b in Changed(v, next)
      ensures b.id != id
    {
      ChangedIsNew(v, next, b);
    }
    OthersStay(Forget(v, v.snapshot.Keys - Ids(next)), Changed(v, next), can, id);
  }

  /** Whatever the surface would draw is drawn. */
  ghost predicate Faithful(v: View, can: Abilities) {
    v.shown <= v.snapshot.Keys && forall id <- v.snapshot :: id in v.shown <==> !can.refuses(v.snapshot[id])
  }

  lemma ApplyKeys(v: View, next: seq<Annotation>, can: Abilities)
    requires Distinct(next) && v.shown <= v.snapshot.Keys
    ensures Apply(v, next, can).snapshot.Keys == Ids(next)
    ensures Apply(v, next, can).shown <= Ids(next)
  {
    hide Apply;
    var w := Apply(v, next, can);
    forall id
      ensures id in w.snapshot <==> id in Ids(next)
      ensures id in w.shown ==> id in Ids(next)
    {
      if id in Ids(next) {
        var a :| a in next && a.id == id;
        ApplyOne(v, next, can, a);
      } else {
        ApplyForgets(v, next, can, id);
      }
    }
  }

  /** Drawing from scratch shows every annotation of the list that the surface does not refuse. */
  lemma RedrawIs(next: seq<Annotation>, can: Abilities)
    requires Distinct(next)
    ensures var r := Redraw(next, can);
            && Faithful(r, can) && r.snapshot.Keys == Ids(next)
            && (forall a <- next :: r.snapshot[a.id] == a)
            && Live(r).Values == set a | a in next && !can.refuses(a)
  {
    hide Apply;
    var r := Redraw(next, can);
    ApplyKeys(View(map[], {}), next, can);
    forall a <- next
      ensures r.snapshot[a.id] == a && (a.id in r.shown <==> !can.refuses(a))
      ensures !can.refuses(a) ==> a in Live(r).Values
    {
      ApplyOne(View(map[], {}), next, can, a);
      if !can.refuses(a) { assert Live(r)[a.id] == a; }
    }
    forall b | b in Live(r).Values
      ensures b in next && !can.refuses(b)
    {
      var id :| id in Live(r) && Live(r)[id] == b;
      var a :| a in next && a.id == id;
    }
  }

  /** An annotation on the chart that changes into one the surface would refuse to create. */
  ghost predicate Sours(v: View, next: seq<Annotation>, can: Abilities) {
    exists a :: a in next && a.id in v.shown && can.refuses(a)
  }

  /** The incremental form ends where a redraw would, unless it redraws in place something a redraw
    would refuse: and then it does not. */
  lemma IncrementalIsRedrawExactly(v: View, next: seq<Annotation>, can: Abilities)
    requires Distinct(next) && Faithful(v, can)
    ensures Apply(v, next, can) == Redraw(next, can) <==> !(can.inPlace && Sours(v, next, can))
  {
    hide Apply, Redraw, Faithful, Live;
    var w, r := Apply(v, next, can), Redraw(next, can);
    RedrawIs(next, can);
    FaithfulBounds(v, can);
    ApplyKeys(v, next, can);
    FaithfulBounds(r, can);
    forall a <- next
      ensures w.snapshot[a.id] == a
      ensures (a.id in w.shown <==> a.id in r.shown) <==> !(can.inPlace && a.id in v.shown && can.refuses(a))
    {
      ApplyOne(v, next, can, a);
      FaithfulAt(v, can, a);
      FaithfulAt(r, can, a);
    }
    SameView(w, r, next);
  }

  lemma FaithfulBounds(v: View, can: Abilities)
    requires Faithful(v, can)
    ensures v.shown <= v.snapshot.Keys
  {
  }

  lemma FaithfulAt(v: View, can: Abilities, a: Annotation)
    requires Faithful(v, can)
    ensures a.id in v.snapshot && v.snapshot[a.id] == a ==> (a.id in v.shown <==> !can.refuses(a))
  {
  }

  lemma SameView(w: View, r: View, next: seq<Annotation>)
    requires w.snapshot.Keys == r.snapshot.Keys == Ids(next) && w.shown <= Ids(next) && r.shown <= Ids(next)
    requires forall a <- next :: w.snapshot[a.id] == a == r.snapshot[a.id]
    ensures w == r <==> forall a <- next :: a.id in w.shown <==> a.id in r.shown
  {
    if forall a <- next :: a.id in w.shown <==> a.id in r.shown {
      assert w.snapshot == r.snapshot;
      assert w.shown == r.shown;
    }
  }

  // ---------------------------------------------------------------- whole runs

  datatype Call = Given(next: seq<Annotation>) | Cleared

  function After(calls: seq<Call>, can: Abilities): View {
    if calls == [] then View(map[], {})
    else match calls[|calls| - 1]
      case Given(next) => Apply(After(calls[..|calls| - 1], can), next, can)
      case Cleared => View(map[], {})
  }

  /** The annotations the chart should show: those of the last list since it was cleared. */
  function Latest(calls: seq<Call>): seq<Annotation> {
    if calls == [] || calls[|calls| - 1].Cleared? then [] else calls[|calls| - 1].next
  }

  /** After any run in which the surface creates whatever it is given, or cannot redraw in place,
    the chart is what a clear and one redraw of the last list would leave. */
  lemma {:induction false} RunsMatchRedraw(calls: seq<Call>, can: Abilities)
    requires forall c <- calls :: c.Given? ==> Distinct(c.next)
    requires can.inPlace ==> forall c <- calls :: c.Given? ==> forall a <- c.next :: !can.refuses(a)
    ensures After(calls, can) == Redraw(Latest(calls), can)
    ensures Faithful(After(calls, can), can)
  {
    hide Apply, Redraw, Faithful;
    RedrawNothing(can);
    if calls != [] {
      var init, last := calls[..|calls| - 1], calls[|calls| - 1];
      RunsMatchRedraw(init, can);
      if last.Given? {
        assert last in calls;
        IncrementalIsRedrawExactly(After(init, can), last.next, can);
        RedrawIs(last.next, can);
      }
    }
  }

  /** Since this id last came onto the chart without a break, some annotation with it was one the surface creates. */
  ghost predicate Accepted(calls: seq<Call>, can: Abilities, id: string) {
    calls != [] && calls[|calls| - 1].Given?
    && exists a :: a in calls[|calls| - 1].next && a.id == id
                   && (!can.refuses(a) || Accepted(calls[..|calls| - 1], can, id))
  }

  /** What every run leaves: the last list is remembered, and of it is shown what the surface creates or, where it
    redraws in place, has once created since the id came. */
  ghost predicate Leaves(calls: seq<Call>, can: Abilities, v: View) {
    && v.snapshot.Keys == Ids(Latest(calls)) && v.shown <= v.snapshot.Keys
    && forall a <- Latest(calls) ::
         v.snapshot[a.id] == a
         && (a.id in v.shown <==> if can.inPlace then Accepted(calls, can, a.id) else !can.refuses(a))
  }

  lemma {:induction false} RunLeaves(calls: seq<Call>, can: Abilities)
    requires forall c <- calls :: c.Given? ==> Distinct(c.next)
    ensures Leaves(calls, can, After(calls, can))
  {
    hide Apply, Distinct;
    if calls != [] {
      var init, last := calls[..|calls| - 1], calls[|calls| - 1];
      RunLeaves(init, can);
      if last.Given? {
        assert last in calls;
        OneMoreList(calls, can, After(init, can), last.next);
      }
    }
  }

  lemma OneMoreList(calls: seq<Call>, can: Abilities, v: View, next: seq<Annotation>)
    requires calls != [] && calls[|calls| - 1] == Given(next) && Distinct(next)
    requires Leaves(calls[..|calls| - 1], can, v)
    ensures Leaves(calls, can, Apply(v, next, can))
  {
    hide Apply;
    var init := calls[..|calls| - 1];
    ApplyKeys(v, next, can);
    forall a <- next
      ensures Apply(v, next, can).snapshot[a.id] == a
      ensures a.id in Apply(v, next, can).shown <==> if can.inPlace then Accepted(calls, can, a.id) else !can.refuses(a)
    {
      ApplyOne(v, next, can, a);
      AcceptedOne(calls, can, next, a);
      if a.id in v.snapshot {
        var b :| b in Latest(init) && b.id == a.id;
        assert v.snapshot[b.id] == b;
        if !can.refuses(b) { LatestAccepted(init, can, b); }
      } else {
        NotLatest(init, can, a.id);
      }
    }
  }

  lemma AcceptedOne(calls: seq<Call>, can: Abilities, next: seq<Annotation>, a: Annotation)
    requires calls != [] && calls[|calls| - 1] == Given(next) && Distinct(next) && a in next
    ensures Accepted(calls, can, a.id) <==> !can.refuses(a) || Accepted(calls[..|calls| - 1], can, a.id)
  {
    forall b | b in next && b.id == a.id
      ensures b == a
    {
      SameIdSame(next, a, b);
    }
  }

  lemma LatestAccepted(calls: seq<Call>, can: Abilities, b: Annotation)
    requires b in Latest(calls) && !can.refuses(b)
    ensures Accepted(calls, can, b.id)
  {
  }

  lemma NotLatest(calls: seq<Call>, can: Abilities, id: string)
    requires id !in Ids(Latest(calls))
    ensures !Accepted(calls, can, id)
  {
  }

  /** After any run whatever, the chart is what a redraw of the last list would leave, unless the surface redraws in place
    and the list has an annotation that it refuses with an id that it has once created since the id came: and then
    it is not. */
  lemma RunsMatchRedrawExactly(calls: seq<Call>, can: Abilities)
    requires forall c <- calls :: c.Given? ==> Distinct(c.next)
    ensures After(calls, can) == Redraw(Latest(calls), can)
       <==> !(can.inPlace && exists a :: a in Latest(calls) && can.refuses(a) && Accepted(calls, can, a.id))
  {
    hide Apply, Redraw, Accepted, Live;
    var next, w := Latest(calls), After(calls, can);
    assert Distinct(next) by { LatestDistinct(calls); }
    forall a | a in next && !can.refuses(a)
      ensures Accepted(calls, can, a.id)
    {
      LatestAccepted(calls, can, a);
    }
    hide Distinct, Latest;
    var r := Redraw(next, can);
    RunLeaves(calls, can);
    RedrawIs(next, can);
    FaithfulBounds(r, can);
    forall a <- next
      ensures (a.id in r.shown <==> !can.refuses(a)) && r.snapshot[a.id] == a
    {
      FaithfulAt(r, can, a);
    }
    if can.inPlace {
      forall a <- next
        ensures (a.id in w.shown <==> a.id in r.shown) <==> !(can.refuses(a) && Accepted(calls, can, a.id))
      {
      }
    }
    SameView(w, r, next);
  }

  lemma LatestDistinct(calls: seq<Call>)
    requires forall c <- calls :: c.Given? ==> Distinct(c.next)
    ensures Distinct(Latest(calls))
  {
    if calls != [] { assert calls[|calls| - 1] in calls; }
  }

  lemma RedrawNothing(can: Abilities)
    ensures Redraw([], can) == View(map[], {}) && Faithful(View(map[], {}), can)
  {
  }

  /** An annotation that did not change is not among those drawn. */
  lemma UnchangedIsUntouched(v: View, next: seq<Annotation>, a: Annotation)
    requires Distinct(next) && a in next && a.id in v.snapshot && v.snapshot[a.id] == a
    ensures a.id !in Ids(Changed(v, next))
  {
    hide Changed;
    forall b | b in Changed(v, next)
      ensures b.id != a.id
    {
      ChangedIsNew(v, next, b);
      if b.id == a.id { SameIdSame(next, a, b); }
    }
  }

  /** Giving the same list again leaves nothing to remove and nothing to draw. */
  lemma GivenIsSettled(v: View, next: seq<Annotation>, can: Abilities)
    requires Distinct(next) && v.shown <= v.snapshot.Keys
    ensures Changed(Apply(v, next, can), next) == [] && Apply(v, next, can).snapshot.Keys == Ids(next)
  {
    hide Apply, Changed;
    var w := Apply(v, next, can);
    ApplyKeys(v, next, can);
    if Changed(w, next) != [] {
      var b := Changed(w, next)[0];
      ChangedIsNew(w, next, b);
      ApplyOne(v, next, can, b);
      assert false;
    }
  }
}
