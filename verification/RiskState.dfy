/** Typed gate inputs (signald/risk/state.py): the book, the market, the risk request. */
module RiskState {
  import opened Prelude

  datatype Sleeve = Swing | Intraday

  datatype Side = Buy | Sell

  datatype Setup = OrbRvol | GapGo | VwapPullback | VwapRevert | GapFade | OtherSetup

  /** A held position; `last` is absent when the broker sends no mark. */
  datatype Position = Position(
    symbol: string, qty: real, avgEntry: real, sleeve: Sleeve,
    last: Option<real>, stop: Option<real>,
    cluster: Option<string>, sector: Option<string>)
  {
    /** Absolute market value, at the broker's mark when there is one. */
    function Notional(): real {
      RAbs(qty) * last.GetOr(avgEntry)
    }

    function ClusterKey(): string {
      KeyOf(cluster, sector, symbol)
    }
  }

  /** `cluster or sector or symbol`: an empty string is as absent as `None`. */
  function KeyOf(cluster: Option<string>, sector: Option<string>, symbol: string): string {
    if cluster.Some? && cluster.value != "" then cluster.value
    else if sector.Some? && sector.value != "" then sector.value
    else symbol
  }

  datatype BookState = BookState(
    equity: real, cash: real, positions: seq<Position>, heatPct: real,
    tradesToday: map<string, nat>, sleeveTradesToday: map<Sleeve, nat>)
  {
    function Notional(): real {
      Sum(seq(|positions|, i requires 0 <= i < |positions| => positions[i].Notional()))
    }

    /** Net signed quantity of one symbol across both sleeves. */
    function PositionFor(symbol: string): real {
      NetQty(positions, symbol)
    }

    function ClusterNotionalOf(key: string): real {
      ClusterTotal(positions, key)
    }

    function SleeveDeployed(sleeve: Sleeve): real {
      SleeveTotal(positions, sleeve)
    }

    function DeployedPct(sleeve: Sleeve): real {
      if equity > 0.0 then SleeveDeployed(sleeve) / equity else 0.0
    }

    function Count(): nat {
      |positions|
    }

    function CountIn(sleeve: Sleeve): nat {
      SleeveCount(positions, sleeve)
    }

    function TradesFor(symbol: string): nat {
      if symbol in tradesToday then tradesToday[symbol] else 0
    }

    /** The netting loop of `by_symbol`: one dict pass, equal to the per-symbol sums. */
    method BySymbol() returns (net: map<string, real>)
      ensures forall s :: s in net <==> exists p :: p in positions && p.symbol == s
      ensures forall s :: s in net ==> net[s] == NetQty(positions, s)
    {
      net := map[];
      for i := 0 to |positions|
        invariant forall s :: s in net <==> exists p :: p in positions[..i] && p.symbol == s
        invariant forall s :: NetQty(positions[..i], s) == if s in net then net[s] else 0.0
      {
        var p := positions[i];
        assert positions[..i + 1] == positions[..i] + [p];
        net := net[p.symbol := (if p.symbol in net then net[p.symbol] else 0.0) + p.qty];
      }
      assert positions[..|positions|] == positions;
    }

    /** The cluster loop of `cluster_notional`. */
    method ClusterNotional() returns (out: map<string, real>)
      ensures forall k :: k in out <==> exists p :: p in positions && p.ClusterKey() == k
      ensures forall k :: ClusterTotal(positions, k) == if k in out then out[k] else 0.0
    {
      out := map[];
      for i := 0 to |positions|
        invariant forall k :: k in out <==> exists p :: p in positions[..i] && p.ClusterKey() == k
        invariant forall k :: ClusterTotal(positions[..i], k) == if k in out then out[k] else 0.0
      {
        var p := positions[i];
        var key := p.ClusterKey();
        assert positions[..i + 1] == positions[..i] + [p];
        out := out[key := (if key in out then out[key] else 0.0) + p.Notional()];
      }
      assert positions[..|positions|] == positions;
    }
  }

  function NetQty(ps: seq<Position>, symbol: string): real {
    if ps == [] then 0.0
    else
      var p := ps[|ps| - 1];
      NetQty(ps[..|ps| - 1], symbol) + if p.symbol == symbol then p.qty else 0.0
  }

  function ClusterTotal(ps: seq<Position>, key: string): real {
    if ps == [] then 0.0
    else
      var p := ps[|ps| - 1];
      ClusterTotal(ps[..|ps| - 1], key) + if p.ClusterKey() == key then p.Notional() else 0.0
  }

  function SleeveTotal(ps: seq<Position>, sleeve: Sleeve): real {
    if ps == [] then 0.0
    else
      var p := ps[|ps| - 1];
      SleeveTotal(ps[..|ps| - 1], sleeve) + if p.sleeve == sleeve then p.Notional() else 0.0
  }

  function SleeveCount(ps: seq<Position>, sleeve: Sleeve): nat {
    if ps == [] then 0
    else SleeveCount(ps[..|ps| - 1], sleeve) + if ps[|ps| - 1].sleeve == sleeve then 1 else 0
  }

  /** The totals of a book are the sums of those of its parts. */
  lemma {:induction false} TotalsAdd(a: seq<Position>, b: seq<Position>, symbol: string, key: string, sleeve: Sleeve)
    ensures NetQty(a + b, symbol) == NetQty(a, symbol) + NetQty(b, symbol)
    ensures ClusterTotal(a + b, key) == ClusterTotal(a, key) + ClusterTotal(b, key)
    ensures SleeveTotal(a + b, sleeve) == SleeveTotal(a, sleeve) + SleeveTotal(b, sleeve)
    ensures SleeveCount(a + b, sleeve) == SleeveCount(a, sleeve) + SleeveCount(b, sleeve)
  {
    if b == [] {
      assert a + b == a;
    } else {
      assert (a + b)[..|a + b| - 1] == a + b[..|b| - 1];
      TotalsAdd(a, b[..|b| - 1], symbol, key, sleeve);
    }
  }

  /** The price a position is valued at: the broker's mark, or else its average entry. */
  predicate MarkedAt(p: Position, price: real) {
    if p.last.Some? then p.last.value == price else p.avgEntry == price
  }

  /** A usable text: present and not empty. */
  predicate Names(text: Option<string>) {
    text.Some? && text.value != ""
  }

  /**
   * What one position adds: its signed shares to its own symbol, and its unsigned value to its sleeve
   * and to its cluster, its sector if it names no cluster, or its symbol if it names neither.
   */
  lemma OnePositionAdds(p: Position, price: real, symbol: string, key: string, sleeve: Sleeve)
    requires MarkedAt(p, price)
    ensures var shares := if p.qty < 0.0 then -p.qty else p.qty;
      && NetQty([p], symbol) == (if p.symbol == symbol then p.qty else 0.0)
      && SleeveTotal([p], sleeve) == (if p.sleeve == sleeve then shares * price else 0.0)
      && SleeveCount([p], sleeve) == (if p.sleeve == sleeve then 1 else 0)
      && ClusterTotal([p], key)
         == if Some(key) == (if Names(p.cluster) then p.cluster else if Names(p.sector) then p.sector
                             else Some(p.symbol))
            then shares * price else 0.0
  {
    assert [p][..0] == [];
    assert p.Notional() == (if p.qty < 0.0 then -p.qty else p.qty) * price;
  }

  datatype Session = NoSession | Closed | Trading

  datatype DataQuality = Fresh | Partial | OtherQuality

  datatype DayType = TrendDay | RangeDay | UnknownDay

  /** Per-instrument market state. `caliberKnown` is false for the unusable price calibers. */
  datatype MarketState = MarketState(
    last: Option<real>, spreadBps: Option<real>, spreadMedianBps: Option<real>,
    quoteAgeS: Option<real>, barAgeS: Option<real>, session: Session, halted: bool,
    reopenCooldownS: Option<real>, tradable: bool, shortable: bool, ssr: bool,
    advShares: Option<real>, atr: Option<real>, dataQuality: DataQuality,
    caliberKnown: bool, impulsePct: Option<real>, newsShock: bool)
  {
    /** `spread_blown()` at its default multiple of 3. */
    predicate SpreadBlown() {
      spreadBps.Some? && spreadMedianBps.Some? && spreadMedianBps.value != 0.0
      && spreadBps.value > 3.0 * spreadMedianBps.value
    }
  }

  /** What a sleeve asks for: a fraction of equity to put at risk over a stop distance. */
  datatype RiskRequest = RiskRequest(
    sleeve: Sleeve, symbol: string, setup: Setup, side: Side,
    stopDistance: real, price: real, equity: real, requestedRiskPct: real,
    stopPrice: Option<real>, targetPrice: Option<real>, measuredMoveBps: Option<real>,
    roundTripCostBps: Option<real>, trailingVolume: Option<real>,
    cluster: Option<string>, sector: Option<string>,
    opensShort: bool, plannedNotionalUsd: Option<real>)
  {
    function NotionalPerShare(): real {
      RAbs(price)
    }
  }
}
