/** gr_autopilot/link/hopping_backend.py: the decorator that retunes an inner backend every dwell,
    and its per-dwell books. */
module HoppingBackend {
  import opened Basics
  import opened Trellis

  /** One graded capture: what was sent and what was received. */
  datatype Trial = Trial(tx: seq<Bit>, rx: seq<Bit>)

  datatype HopPlan = HopPlan(channels: seq<real>, rate: real)

  /** The wrapped backend: it grades on whatever channel it is tuned to. Some inner backends do not
      expose their tuning. */
  class Inner {
    const exposed: bool
    const sampleRate: real
    const respond: (Option<real>, nat, int) -> Trial
    var center: Option<real>

    constructor (exposed: bool, sampleRate: real, respond: (Option<real>, nat, int) -> Trial, center: Option<real>)
      ensures this.exposed == exposed && this.sampleRate == sampleRate && this.respond == respond
      ensures this.center == center
    {
      this.exposed, this.sampleRate, this.respond, this.center := exposed, sampleRate, respond, center;
    }

    method SetCenter(f: real)
      modifies this
      ensures center == Some(f)
    {
      center := Some(f);
    }

    method RunLink(nBits: nat, seed: int) returns (t: Trial)
      ensures t == respond(center, nBits, seed)
    {
      t := respond(center, nBits, seed);
    }
  }

  // ---- the books -------------------------------------------------------------------------

  /** The capture of dwell i. */
  function Dwell(respond: (Option<real>, nat, int) -> Trial, channels: seq<real>, per: nat, seed: int, i: nat): Trial
    requires i < |channels|
  {
    respond(Some(channels[i]), per, seed + i)
  }

  function Dwells(respond: (Option<real>, nat, int) -> Trial, channels: seq<real>, per: nat, seed: int, n: nat)
    : (d: seq<Trial>)
    requires n <= |channels|
    ensures |d| == n
  {
    if n == 0 then []
    else Dwells(respond, channels, per, seed, n - 1) + [Dwell(respond, channels, per, seed, n - 1)]
  }

  function SentBits(dwells: seq<Trial>): seq<Bit> {
    if dwells == [] then [] else SentBits(dwells[..|dwells| - 1]) + dwells[|dwells| - 1].tx
  }

  function ReceivedBits(dwells: seq<Trial>): seq<Bit> {
    if dwells == [] then [] else ReceivedBits(dwells[..|dwells| - 1]) + dwells[|dwells| - 1].rx
  }

  /** Graded bits of each dwell, as received. */
  function Counts(dwells: seq<Trial>): (c: seq<nat>)
    ensures |c| == |dwells|
  {
    seq(|dwells|, i requires 0 <= i < |dwells| => |dwells[i].rx|)
  }

  function Offset(counts: seq<nat>, i: nat): nat
    requires i <= |counts|
  {
    if i == 0 then 0 else Offset(counts, i - 1) + counts[i - 1]
  }

  lemma {:induction false} OffsetOfPrefix(counts: seq<nat>, n: nat, i: nat)
    requires i <= n <= |counts|
    ensures Offset(counts[..n], i) == Offset(counts, i)
  {
    if i > 0 { OffsetOfPrefix(counts, n, i - 1); }
  }

  /** The recorded counts cut the aggregate back into the dwells' own bits. */
  lemma {:induction false} CountsPartition(dwells: seq<Trial>, i: nat)
    requires i < |dwells|
    ensures Offset(Counts(dwells), |dwells|) == |ReceivedBits(dwells)|
    ensures Offset(Counts(dwells), i) + |dwells[i].rx| <= |ReceivedBits(dwells)|
    ensures ReceivedBits(dwells)[Offset(Counts(dwells), i)..Offset(Counts(dwells), i) + |dwells[i].rx|] == dwells[i].rx
  {
    hide ReceivedBits, Counts;
    var n := |dwells| - 1;
    OneMoreDwell(dwells[..n], dwells[n]);
    assert dwells[..n] + [dwells[n]] == dwells;
    assert Counts(dwells)[..n] == Counts(dwells[..n]);
    OffsetOfPrefix(Counts(dwells), n, n);
    OffsetOfPrefix(Counts(dwells), n, i);
    if n > 0 { CountsPartition(dwells[..n], if i < n then i else 0); } else { NothingReceived(); }
  }

  lemma NothingReceived()
    ensures ReceivedBits([]) == []
  {
  }

  function Errors(tx: seq<Bit>, rx: seq<Bit>): nat
    requires |tx| == |rx|
  {
    if tx == [] then 0 else Errors(tx[..|tx| - 1], rx[..|rx| - 1]) + Xor(tx[|tx| - 1], rx[|rx| - 1])
  }

  lemma {:induction false} ErrorsConcat(a: seq<Bit>, b: seq<Bit>, c: seq<Bit>, d: seq<Bit>)
    requires |a| == |b| && |c| == |d|
    ensures Errors(a + c, b + d) == Errors(a, b) + Errors(c, d)
  {
    if c == [] {
      assert a + c == a && b + d == b;
    } else {
      var n := |c| - 1;
      assert (a + c)[..|a + c| - 1] == a + c[..n] && (b + d)[..|b + d| - 1] == b + d[..n];
      ErrorsConcat(a, b, c[..n], d[..n]);
    }
  }

  function DwellErrors(dwells: seq<Trial>): nat
    requires forall i :: 0 <= i < |dwells| ==> |dwells[i].tx| == |dwells[i].rx|
  {
    if dwells == [] then 0
    else DwellErrors(dwells[..|dwells| - 1]) + Errors(dwells[|dwells| - 1].tx, dwells[|dwells| - 1].rx)
  }

  /** One more dwell on the books. */
  lemma OneMoreDwell(d: seq<Trial>, t: Trial)
    ensures SentBits(d + [t]) == SentBits(d) + t.tx && ReceivedBits(d + [t]) == ReceivedBits(d) + t.rx
    ensures Counts(d + [t]) == Counts(d) + [|t.rx|]
  {
    assert (d + [t])[..|d|] == d;
  }

  lemma NoDwells(respond: (Option<real>, nat, int) -> Trial, channels: seq<real>, per: nat, seed: int)
    ensures var d := Dwells(respond, channels, per, seed, 0);
            SentBits(d) == [] && ReceivedBits(d) == [] && Counts(d) == []
  {
  }

  lemma NextDwell(respond: (Option<real>, nat, int) -> Trial, channels: seq<real>, per: nat, seed: int, i: nat)
    requires i < |channels|
    ensures var d, e := Dwells(respond, channels, per, seed, i), Dwells(respond, channels, per, seed, i + 1);
            var t := Dwell(respond, channels, per, seed, i);
            SentBits(e) == SentBits(d) + t.tx && ReceivedBits(e) == ReceivedBits(d) + t.rx
            && Counts(e) == Counts(d) + [|t.rx|]
  {
    hide SentBits, ReceivedBits, Counts;
    OneMoreDwell(Dwells(respond, channels, per, seed, i), Dwell(respond, channels, per, seed, i));
  }

  /** Aligned captures: the errors of the cycle are the errors of its dwells. */
  lemma {:induction false} ErrorsAddUp(dwells: seq<Trial>)
    requires forall i :: 0 <= i < |dwells| ==> |dwells[i].tx| == |dwells[i].rx|
    ensures |SentBits(dwells)| == |ReceivedBits(dwells)|
    ensures Errors(SentBits(dwells), ReceivedBits(dwells)) == DwellErrors(dwells)
  {
    if dwells != [] {
      var n := |dwells| - 1;
      hide Errors, Xor;
      ErrorsAddUp(dwells[..n]);
      OneMoreDwell(dwells[..n], dwells[n]);
      assert dwells[..n] + [dwells[n]] == dwells;
      hide SentBits, ReceivedBits;
      ErrorsConcat(SentBits(dwells[..n]), ReceivedBits(dwells[..n]), dwells[n].tx, dwells[n].rx);
    }
  }

  // ---- dwell size ------------------------------------------------------------------------

  function Max(a: int, b: int): int { if a < b then b else a }
  function Min(a: int, b: int): int { if a < b then a else b }

  /** Per-dwell payload; bps is None for a modulation the link does not know. */
  function DwellBits(minBits: nat, nPayload: nat, k: nat, plan: Option<HopPlan>, sampleRate: real,
                     bps: Option<nat>, sps: int): nat
    requires k >= 1 && (plan.Some? ==> plan.value.rate > 0.0)
  {
    var per := Max(minBits, nPayload / k);
    if plan.None? || sampleRate == 0.0 || bps.None? then per
    else
      var budget := (1.0 / plan.value.rate * (sampleRate / Max(1, sps) as real) * bps.value as real).Floor;
      Max(minBits, Min(per, budget))
  }

  /** Above the acquisition floor a dwell never carries more than its share of the request nor more
      than fits in the dwell's air time. */
  lemma DwellFitsItsAirTime(minBits: nat, nPayload: nat, k: nat, plan: HopPlan, sampleRate: real, bps: nat, sps: int)
    requires k >= 1 && plan.rate > 0.0 && sampleRate > 0.0
    ensures var b := DwellBits(minBits, nPayload, k, Some(plan), sampleRate, Some(bps), sps);
            b >= minBits && (b > minBits ==> (b <= nPayload / k
              && b as real <= 1.0 / plan.rate * (sampleRate / Max(1, sps) as real) * bps as real))
  {
  }

  /** And it is the largest such number: whatever fits both is no more than the dwell. Without a usable rate it is just
      the share, or the floor. */
  lemma DwellUsesItsAirTime(minBits: nat, nPayload: nat, k: nat, plan: HopPlan, sampleRate: real, bps: nat, sps: int,
                            n: nat)
    requires k >= 1 && plan.rate > 0.0 && sampleRate > 0.0
    requires n <= nPayload / k && n as real <= 1.0 / plan.rate * (sampleRate / Max(1, sps) as real) * bps as real
    ensures n <= DwellBits(minBits, nPayload, k, Some(plan), sampleRate, Some(bps), sps)
  {
  }

  lemma DwellWithoutRate(minBits: nat, nPayload: nat, k: nat, plan: Option<HopPlan>, bps: Option<nat>, sps: int)
    requires k >= 1 && (plan.Some? ==> plan.value.rate > 0.0)
    ensures var b := DwellBits(minBits, nPayload, k, plan, 0.0, bps, sps);
            b >= minBits && b >= nPayload / k && (b == minBits || b == nPayload / k)
  {
  }

  /** Dwell i is the capture of its own channel, with the seed moved on by its number. */
  lemma {:induction false} DwellIsItsCapture(respond: (Option<real>, nat, int) -> Trial, channels: seq<real>, per: nat,
                                             seed: int, n: nat, i: nat)
    requires i < n <= |channels|
    ensures Dwells(respond, channels, per, seed, n)[i] == respond(Some(channels[i]), per, seed + i)
  {
    if i < n - 1 { DwellIsItsCapture(respond, channels, per, seed, n - 1, i); }
  }

  // ---- the decorator -----------------------------------------------------------------------

  /** What set_condition was given: hop is the new plan if that key was present. */
  datatype Condition = Condition(hop: Option<Option<HopPlan>>, center: Option<real>)

  /** The aggregate of a hop cycle, or a plain result of the inner backend. */
  datatype Graded = Graded(tx: seq<Bit>, rx: seq<Bit>, counts: seq<nat>)

  class Backend {
    const inner: Inner
    const minDwellBits: nat
    var hopPlan: Option<HopPlan>
    var live: Option<real>
    var tuned: Option<real>

    constructor (inner: Inner, minDwellBits: nat)
      ensures this.inner == inner && this.minDwellBits == minDwellBits
      ensures hopPlan.None? && live.None? && tuned.None?
    {
      this.inner, this.minDwellBits := inner, minDwellBits;
      hopPlan, live, tuned := None, None, None;
    }

    /** The tuning outside a hop cycle: what the decorator recorded, else what the inner one exposes. */
    function Center(): Option<real>
      reads this, inner
    {
      if tuned.Some? then tuned else if inner.exposed then inner.center else None
    }

    method SetCondition(cond: Condition)
      modifies this, inner
      ensures hopPlan == (if cond.hop.Some? then cond.hop.value else old(hopPlan))
      ensures tuned == (if cond.center.Some? then cond.center else old(tuned))
      ensures live == (if cond.center.Some? && hopPlan.None? then cond.center else old(live))
      ensures inner.center == (if cond.center.Some? then cond.center else old(inner.center))
    {
      if cond.hop.Some? { hopPlan := cond.hop.value; }
      if cond.center.Some? {
        tuned := cond.center;
        if hopPlan.None? { live := tuned; }
        inner.SetCenter(cond.center.value);
      }
    }

    /** Without a plan of at least two channels this is the inner backend's own trial. Otherwise one
        capture per channel, in order, concatenated; the starting channel is restored when known. */
    method RunLink(nPayload: nat, seed: int, bps: Option<nat>, sps: int) returns (g: Graded)
      requires hopPlan.Some? ==> hopPlan.value.rate > 0.0
      modifies this`live, inner
      ensures hopPlan.None? || |hopPlan.value.channels| <= 1 ==>
                var t := inner.respond(old(inner.center), nPayload, seed);
                g == Graded(t.tx, t.rx, []) && inner.center == old(inner.center) && live == old(live)
      ensures hopPlan.Some? && |hopPlan.value.channels| > 1 ==>
                var chans := hopPlan.value.channels;
                var per := DwellBits(minDwellBits, nPayload, |chans|, hopPlan, inner.sampleRate, bps, sps);
                var dwells := Dwells(inner.respond, chans, per, seed, |chans|);
                && g == Graded(SentBits(dwells), ReceivedBits(dwells), Counts(dwells))
                && (if old(Center()).Some? then inner.center == old(Center()) && live == old(Center())
                    else inner.center == live == Some(chans[|chans| - 1]))
    {
      hide SentBits, ReceivedBits, Counts, DwellBits, Dwells;
      if hopPlan.None? || |hopPlan.value.channels| <= 1 {
        var t := inner.RunLink(nPayload, seed);
        return Graded(t.tx, t.rx, []);
      }
      var chans := hopPlan.value.channels;
      var per := DwellBits(minDwellBits, nPayload, |chans|, hopPlan, inner.sampleRate, bps, sps);
      var orig := Center();
      var tx: seq<Bit>, rx: seq<Bit>, counts: seq<nat> := [], [], [];
      NoDwells(inner.respond, chans, per, seed);
      for i := 0 to |chans|
        invariant var d := Dwells(inner.respond, chans, per, seed, i);
                  tx == SentBits(d) && rx == ReceivedBits(d) && counts == Counts(d)
        invariant i > 0 ==> inner.center == live == Some(chans[i - 1])
      {
        live := Some(chans[i]);
        inner.SetCenter(chans[i]);
        var t := inner.RunLink(per, seed + i);
        NextDwell(inner.respond, chans, per, seed, i);
        tx := tx + t.tx;
        rx := rx + t.rx;
        counts := counts + [|t.rx|];
      }
      if orig.Some? {
        inner.SetCenter(orig.value);
        live := orig;
      }
      return Graded(tx, rx, counts);
    }
  }
}
