/** The chart controller, and the adapter and renderer it drives. */
module Chart {
  import opened Candles
  import Annotations

  /** Holds the adapter's copy of the series and publishes it to whoever draws it. */
  class CandleAdapter {
    var candles: seq<Candle>
    var published: seq<seq<Candle>>

    constructor ()
      ensures candles == [] && published == []
    {
      candles, published := [], [];
    }

    method ApplyCandles(series: seq<Candle>)
      modifies this
      ensures candles == series && published == old(published) + [series]
    {
      candles := series;
      published := published + [candles];
    }

    method ApplyCandlePatch(candle: Candle) returns (kind: Kind)
      modifies this
      ensures (candles, kind) == Patched(old(candles), candle)
      ensures published == old(published) + [candles]
    {
      if candles == [] || candle.timestamp > candles[|candles| - 1].timestamp {
        candles := candles + [candle];
        kind := NewCandle;
      } else if candle.timestamp == candles[|candles| - 1].timestamp {
        candles := candles[..|candles| - 1] + [candle];
        kind := CandleUpdated;
      } else {
        candles := Correct(candles, candle);
        kind := PriceUpdated;
      }
      published := published + [candles];
    }
  }

  class Controller {
    const adapter: CandleAdapter
    const renderer: Annotations.AnnotationRenderer
    var candles: seq<Candle>
    var annotations: seq<Annotations.Annotation>

    constructor (adapter: CandleAdapter, renderer: Annotations.AnnotationRenderer)
      requires renderer.Valid()
      ensures this.adapter == adapter && this.renderer == renderer && candles == [] && annotations == []
    {
      this.adapter, this.renderer, candles, annotations := adapter, renderer, [], [];
    }

    ghost predicate InSync()
      reads this, adapter
    {
      adapter.candles == candles
    }

    /** The renderer has nothing left to do for the controller's annotations. */
    ghost predicate Drawn()
      reads this, renderer, renderer.surface
    {
      && renderer.Valid()
      && Annotations.Changed(renderer.Seen(), annotations) == []
      && renderer.snapshot.Keys == Annotations.Ids(annotations)
    }

    method ApplyCandles(series: seq<Candle>)
      modifies this`candles, adapter
      ensures candles == series && InSync()
    {
      candles := series;
      adapter.ApplyCandles(series);
    }

    /** The two copies are merged separately; in order, they stay in step exactly for a welcome patch. */
    method ApplyCandlePatch(candle: Candle) returns (kind: Kind)
      modifies this`candles, adapter
      ensures (candles, kind) == Merge(old(candles), candle)
      ensures adapter.candles == Patched(old(adapter.candles), candle).0
      ensures old(InSync()) && Increasing(old(candles)) ==>
                (InSync() <==> Welcome(old(candles), candle)) && (InSync() ==> Increasing(candles))
    {
      var before := candles;
      if Increasing(candles) {
        StepInStep(candles, candle);
      }
      hide Increasing, Welcome, Merge, Patched;
      var merged := MergeCandleUpdate(candles, candle);
      candles, kind := merged.0, merged.1;
      var _ := adapter.ApplyCandlePatch(candle);
    }

    method ApplyAnnotations(next: seq<Annotations.Annotation>)
      requires renderer.Valid()
      modifies this`annotations, renderer, renderer.surface
      ensures annotations == next && renderer.Valid() && (Annotations.Distinct(next) ==> Drawn())
      ensures renderer.Seen() == Annotations.Apply(old(renderer.Seen()), next, renderer.surface.can)
      ensures renderer.Foreign() == old(renderer.Foreign())
    {
      hide Annotations.Apply, Annotations.Changed, Annotations.Unowned, Annotations.Injective, Annotations.Distinct;
      annotations := next;
      renderer.ApplyIncremental(next);
      if Annotations.Distinct(next) {
        Annotations.GivenIsSettled(old(renderer.Seen()), next, renderer.surface.can);
      }
    }

    /** A change of timeframe brings the copies back together, whatever had parted them, and giving the
      renderer a list that is drawn already touches no drawing. */
    method SetTimeframe(changed: bool)
      requires renderer.Valid()
      modifies adapter, renderer, renderer.surface
      ensures if changed then InSync() else adapter.candles == old(adapter.candles)
      ensures old(Drawn()) || !changed ==> renderer.surface.touched == old(renderer.surface.touched)
      ensures changed && Annotations.Distinct(annotations) ==> Drawn()
      ensures renderer.Valid()
           && renderer.Seen() == if changed then Annotations.Apply(old(renderer.Seen()), annotations, renderer.surface.can)
                                 else old(renderer.Seen())
      ensures renderer.Valid() && renderer.Foreign() == old(renderer.Foreign())
    {
      hide Annotations.Apply, Annotations.Changed, Annotations.Unowned, Annotations.Injective, Annotations.Distinct;
      if changed {
        adapter.ApplyCandles(candles);
        ghost var before := renderer.surface.touched;
        ghost var todo := Annotations.Ids(Annotations.Changed(renderer.Seen(), annotations))
                          + (renderer.snapshot.Keys - Annotations.Ids(annotations));
        ghost var seen := renderer.Seen();
        renderer.ApplyIncremental(annotations);
        NothingMore(before, renderer.surface.touched, todo);
        if Annotations.Distinct(annotations) {
          Annotations.GivenIsSettled(seen, annotations, renderer.surface.can);
        }
      }
    }

    /** Everything the chart drew goes; the adapter's copy is left as it was. */
    method Destroy()
      requires renderer.Valid()
      modifies this, renderer, renderer.surface
      ensures candles == [] && annotations == []
      ensures renderer.Valid() && renderer.surface.drawings == old(renderer.Foreign())
      ensures adapter.candles == old(adapter.candles)
    {
      renderer.Clear();
      candles, annotations := [], [];
    }
  }

  lemma NothingMore(before: seq<string>, after: seq<string>, todo: set<string>)
    requires before <= after && forall i :: |before| <= i < |after| ==> after[i] in todo
    ensures todo == {} ==> after == before
  {
    if before != after {
      assert after[|before|] in todo;
    }
  }

  lemma StepInStep(series: seq<Candle>, patch: Candle)
    requires Increasing(series)
    ensures Merge(series, patch).0 == Patched(series, patch).0 <==> Welcome(series, patch)
    ensures Welcome(series, patch) ==> Increasing(Merge(series, patch).0)
  {
    hide Increasing, Welcome, Merge, Patched, Placed;
    MergesPlaceExactly(series, patch);
    PlacedIs(series, patch);
    if !Welcome(series, patch) {
      UnwelcomeSeparates(series, patch);
    }
  }

  lemma MergedIs(series: seq<Candle>, patch: Candle)
    requires Increasing(series)
    ensures Increasing(Merge(series, patch).0) <==> Welcome(series, patch)
    ensures Welcome(series, patch) ==>
              forall c :: c in Merge(series, patch).0 <==> c == patch || (c in series && c.timestamp != patch.timestamp)
  {
    hide Increasing, Welcome, Merge, Patched, Placed;
    MergesPlaceExactly(series, patch);
    PlacedIs(series, patch);
    if !Welcome(series, patch) {
      UnwelcomeSeparates(series, patch);
    }
  }

  /** One patch into a series in order: exactly a welcome one leaves it in order, with the patch at its time and
    every other bar kept. */
  method MergeCandleUpdate(series: seq<Candle>, patch: Candle) returns (merged: (seq<Candle>, Kind))
    ensures merged == Merge(series, patch)
    ensures Increasing(series) ==>
              (Increasing(merged.0) <==> Welcome(series, patch))
              && (Welcome(series, patch) ==> forall c :: c in merged.0 <==> c == patch || (c in series && c.timestamp != patch.timestamp))
  {
    if Increasing(series) { MergedIs(series, patch); }
    hide Increasing, Welcome;
    if series == [] {
      return ([patch], NewCandle);
    }
    var last := series[|series| - 1];
    if patch.timestamp > last.timestamp {
      return (series + [patch], NewCandle);
    }
    if patch.timestamp == last.timestamp {
      var next := series[..|series| - 1] + [patch];
      return (next, if !patch.complete && patch.close != last.close then PriceUpdated else CandleUpdated);
    }
    var index := FirstAt(series, patch.timestamp);
    if index < |series| {
      return (series[index := patch], CandleUpdated);
    }
    return (series + [patch], NewCandle);
  }
}
