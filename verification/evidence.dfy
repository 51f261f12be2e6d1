/** The evidence gate: what has to be read before a direction is stated. Times are in microseconds. */
module Evidence {
  import opened Options

  const MINUTE := 60000000

  datatype Frame = M1 | M5 | M15 | H1 | H4 | OtherFrame

  datatype Status = Ok | Warning | Stale | Absent

  datatype Check = Check(name: string, status: Status, blocking: bool)

  datatype Impact = High | Medium | Low

  datatype Event = Event(at: int, impact: Impact)

  datatype News = News(configured: bool, headlines: nat, latest: Option<int>, events: seq<Event>)

  /** What was read. The flags say whether an engine's answer is there and says anything. */
  datatype Readings = Readings(structure: bool, liquidity: bool, zones: bool, mtf: bool, footprint: bool,
                               extremeRegime: bool, open: bool, news: News, lastBar: int, now: int, frame: Frame)

  predicate Failed(c: Check) {
    c.status.Stale? || c.status.Absent?
  }

  function Present(name: string, present: bool): Check {
    Check(name, if present then Ok else Absent, true)
  }

  function NewsCheck(news: News, now: int): Check {
    if !news.configured || news.headlines == 0 then Check("market_intelligence", Warning, false)
    else
      var stale := news.latest.Some? && now - news.latest.value > 180 * MINUTE;
      Check("market_intelligence", if stale then Stale else Ok, false)
  }

  predicate InBlackout(e: Event, now: int) {
    e.impact.High? && now - 5 * MINUTE <= e.at <= now + 15 * MINUTE
  }

  function BlackoutCheck(events: seq<Event>, now: int): Check {
    if events == [] then Check("event_blackout", Ok, true)
    else if InBlackout(events[0], now) then Check("event_blackout", Absent, true)
    else BlackoutCheck(events[1..], now)
  }

  function FrameMinutes(f: Frame): int {
    match f
    case M1 => 1
    case M5 => 5
    case M15 => 15
    case H1 => 60
    case H4 => 240
    case OtherFrame => 15
  }

  function LivePriceCheck(lastBar: int, now: int, frame: Frame): Check {
    Check("live_price", if now - lastBar > FrameMinutes(frame) * 3 * MINUTE then Stale else Ok, true)
  }

  function Assess(r: Readings): seq<Check> {
    [Present("market_structure", r.structure), Present("liquidity_map", r.liquidity),
     Present("supply_demand", r.zones), Check("institutional_behavior", if r.footprint then Ok else Warning, false),
     Present("multi_timeframe_bias", r.mtf),
     Check("volatility_regime", if r.extremeRegime then Warning else Ok, false),
     Present("trading_session", r.open), NewsCheck(r.news, r.now),
     BlackoutCheck(r.news.events, r.now), LivePriceCheck(r.lastBar, r.now, r.frame)]
  }

  /** The first blocking check that failed. */
  function BlockReason(checks: seq<Check>): (r: Option<string>)
    ensures r.Some? <==> exists i :: 0 <= i < |checks| && checks[i].blocking && Failed(checks[i])
  {
    if checks == [] then None
    else if checks[0].blocking && Failed(checks[0]) then Some(checks[0].name)
    else
      var rest := BlockReason(checks[1..]);
      assert forall i :: 0 < i < |checks| ==> checks[i] == checks[1..][i - 1];
      rest
  }

  lemma {:induction false} BlackoutExactly(events: seq<Event>, now: int)
    ensures var c := BlackoutCheck(events, now);
            c.blocking && (Failed(c) <==> exists i :: 0 <= i < |events| && InBlackout(events[i], now))
  {
    if events != [] {
      BlackoutExactly(events[1..], now);
      assert forall i :: 0 < i < |events| ==> events[i] == events[1..][i - 1];
    }
  }

  /** Everything that can stop a decision at this gate, and nothing else: a reading that is missing, a closed
    market, a high-impact event from fifteen minutes ahead to five behind, or a last bar more than three of
    its own frame old. News never does. */
  lemma BlockedExactly(r: Readings)
    ensures BlockReason(Assess(r)).Some?
      <==> !r.structure || !r.liquidity || !r.zones || !r.mtf || !r.open
           || (exists i :: 0 <= i < |r.news.events| && InBlackout(r.news.events[i], r.now))
           || r.now - r.lastBar > FrameMinutes(r.frame) * 3 * MINUTE
  {
    BlackoutExactly(r.news.events, r.now);
    Ten(Assess(r));
    hide BlockReason, BlackoutCheck, InBlackout, FrameMinutes;
  }

  lemma Ten(checks: seq<Check>)
    requires |checks| == 10
    ensures BlockReason(checks).Some? <==>
              || (checks[0].blocking && Failed(checks[0])) || (checks[1].blocking && Failed(checks[1]))
              || (checks[2].blocking && Failed(checks[2])) || (checks[3].blocking && Failed(checks[3]))
              || (checks[4].blocking && Failed(checks[4])) || (checks[5].blocking && Failed(checks[5]))
              || (checks[6].blocking && Failed(checks[6])) || (checks[7].blocking && Failed(checks[7]))
              || (checks[8].blocking && Failed(checks[8])) || (checks[9].blocking && Failed(checks[9]))
  {
    hide Failed;
  }

  /** And which check is named: the first of them, in this order. */
  lemma BlockNames(r: Readings)
    ensures var event, aged := (exists i :: 0 <= i < |r.news.events| && InBlackout(r.news.events[i], r.now)),
                              r.now - r.lastBar > FrameMinutes(r.frame) * 3 * MINUTE;
            BlockReason(Assess(r))
            == if !r.structure then Some("market_structure")
               else if !r.liquidity then Some("liquidity_map")
               else if !r.zones then Some("supply_demand")
               else if !r.mtf then Some("multi_timeframe_bias")
               else if !r.open then Some("trading_session")
               else if event then Some("event_blackout")
               else if aged then Some("live_price")
               else None
  {
    var checks := Assess(r);
    ChecksAre(r);
    hide Assess, BlockReason, BlackoutCheck, InBlackout, FrameMinutes, Blocks;
    if !r.structure { FirstBlocks(checks, 0); }
    else if !r.liquidity { FirstBlocks(checks, 1); }
    else if !r.zones { FirstBlocks(checks, 2); }
    else if !r.mtf { FirstBlocks(checks, 4); }
    else if !r.open { FirstBlocks(checks, 6); }
    else if Blocks(checks[8]) { FirstBlocks(checks, 8); }
    else if Blocks(checks[9]) { FirstBlocks(checks, 9); }
    else { NoneBlocks(checks); }
  }

  lemma ChecksAre(r: Readings)
    ensures var c := Assess(r);
            && |c| == 10 && !Blocks(c[3]) && !Blocks(c[5]) && !Blocks(c[7])
            && (Blocks(c[0]) <==> !r.structure) && c[0].name == "market_structure"
            && (Blocks(c[1]) <==> !r.liquidity) && c[1].name == "liquidity_map"
            && (Blocks(c[2]) <==> !r.zones) && c[2].name == "supply_demand"
            && (Blocks(c[4]) <==> !r.mtf) && c[4].name == "multi_timeframe_bias"
            && (Blocks(c[6]) <==> !r.open) && c[6].name == "trading_session"
            && (Blocks(c[8]) <==> exists i :: 0 <= i < |r.news.events| && InBlackout(r.news.events[i], r.now))
            && c[8].name == "event_blackout"
            && (Blocks(c[9]) <==> r.now - r.lastBar > FrameMinutes(r.frame) * 3 * MINUTE) && c[9].name == "live_price"
  {
    BlackoutExactly(r.news.events, r.now);
    BlackoutName(r.news.events, r.now);
    hide BlackoutCheck, FrameMinutes, InBlackout;
  }

  lemma {:induction false} NoneBlocks(checks: seq<Check>)
    requires forall k :: 0 <= k < |checks| ==> !Blocks(checks[k])
    ensures BlockReason(checks).None?
  {
    hide Failed;
  }

  lemma {:induction false} BlackoutName(events: seq<Event>, now: int)
    ensures BlackoutCheck(events, now).name == "event_blackout"
  {
    if events != [] { BlackoutName(events[1..], now); }
  }

  predicate Blocks(c: Check) {
    c.blocking && Failed(c)
  }

  lemma {:induction false} FirstBlocks(checks: seq<Check>, k: nat)
    requires k < |checks| && Blocks(checks[k]) && forall l :: 0 <= l < k ==> !Blocks(checks[l])
    ensures BlockReason(checks) == Some(checks[k].name)
  {
    hide Failed;
    if k > 0 {
      assert forall l :: 0 <= l < k - 1 ==> checks[1..][l] == checks[l + 1];
      FirstBlocks(checks[1..], k - 1);
    }
  }

  /** The windows in minutes: a high-impact event from five behind to fifteen ahead, and a last bar of three times its
    frame. */
  lemma WindowsAre(e: Event, now: int, frame: Frame)
    ensures InBlackout(e, now) <==> e.impact == High && -5 * 60000000 <= e.at - now <= 15 * 60000000
    ensures FrameMinutes(frame) * 3 * MINUTE == 180000000 * (if frame == M1 then 1 else if frame == M5 then 5
                                                            else if frame == H1 then 60 else if frame == H4 then 240 else 15)
  {
  }

  /** News is read, but never blocks: it is stale when the newest headline is more than three hours old, and a warning when
    there is nothing to read. */
  lemma NewsExactly(news: News, now: int)
    ensures var c := NewsCheck(news, now);
            && c.name == "market_intelligence" && !c.blocking && !c.status.Absent?
            && (c.status == Warning <==> !news.configured || news.headlines == 0)
            && (c.status == Stale
                <==> news.configured && news.headlines > 0 && news.latest.Some? && news.latest.value < now - 180 * 60000000)
  {
  }

  /** What the report says of every reading: there or absent, in time or stale, and of the two that only advise, as expected
    or a warning. */
  lemma ReportReads(r: Readings)
    ensures var c := Assess(r);
            && |c| == 10 && c[7] == NewsCheck(r.news, r.now)
            && c[0].status == (if r.structure then Ok else Absent) && c[1].status == (if r.liquidity then Ok else Absent)
            && c[2].status == (if r.zones then Ok else Absent) && c[4].status == (if r.mtf then Ok else Absent)
            && c[6].status == (if r.open then Ok else Absent)
            && c[8].status == (if exists i :: 0 <= i < |r.news.events| && InBlackout(r.news.events[i], r.now) then Absent else Ok)
            && c[9].status == (if r.now - r.lastBar > FrameMinutes(r.frame) * 3 * MINUTE then Stale else Ok)
            && c[3] == Check("institutional_behavior", if r.footprint then Ok else Warning, false)
            && c[5] == Check("volatility_regime", if r.extremeRegime then Warning else Ok, false)
  {
    BlackoutStatus(r.news.events, r.now);
    hide BlackoutCheck, InBlackout, FrameMinutes, NewsCheck;
  }

  lemma {:induction false} BlackoutStatus(events: seq<Event>, now: int)
    ensures BlackoutCheck(events, now).status
         == if exists i :: 0 <= i < |events| && InBlackout(events[i], now) then Absent else Ok
  {
    if events != [] {
      BlackoutStatus(events[1..], now);
      assert forall i :: 0 < i < |events| ==> events[i] == events[1..][i - 1];
    }
  }
}
