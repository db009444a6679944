/** Monte Carlo particle tracking: Russian roulette, the collision loop of a
 *  single history, and the transport of a batch of histories sampled from a
 *  fission source. Flight sampling (distance, direction) is an input: each
 *  history comes with the flights its particle would make, and the roulette
 *  draws of the tracker's generator are one shared stream. */
module MarkovTransport {
  import opened Wrappers
  import opened RealSums
  import opened HistSources

  /** Particles whose weight falls below this are played at roulette. */
  const WeightCutoff: real := 0.2
  /** The probability that roulette kills a particle. */
  const PKill: real := 0.2

  /** The cross sections of one zone's material. */
  datatype Material = Material(xS: real, xT: real, nu: real, xF: real)

  /** Every material can divide by its total cross section. */
  predicate Materials(mats: seq<Material>)
  {
    forall i :: 0 <= i < |mats| ==> mats[i].xT != 0.0
  }

  datatype Particle = Particle(x: real, zone: nat, weight: real, leaked: bool)

  /** Where a collision flight ends: a new position and zone, or a leak. */
  datatype Flight = Flight(x: real, zone: nat, leaked: bool)

  /** Why a history stopped. Exhausted means the flights or the roulette
   *  draws supplied for it ran out before it leaked or was killed. */
  datatype Stop = Leaked | Killed | Exhausted

  /** A finished history: the particle's last state, the particle as it was
   *  at each score, why it stopped, and how many roulette draws it used. */
  datatype Track = Track(last: Particle, scored: seq<Particle>, stop: Stop, used: nat)

  /** Every flight that does not leak ends in a zone of the field. */
  predicate InField(fs: seq<Flight>, mats: seq<Material>)
  {
    forall i :: 0 <= i < |fs| ==> fs[i].leaked || fs[i].zone < |mats|
  }

  /** Roulette with draw u: None when the particle is killed, otherwise the
   *  raised weight. A survivor carries w / (1 - PKill), so the weight kept
   *  on average (survival probability times surviving weight) is w. */
  function Roulette(w: real, u: real): (r: Option<real>)
    ensures r.None? <==> u < PKill
    ensures r.Some? ==> (1.0 - PKill) * r.value == w
  {
    if u < PKill then None else Some(w / (1.0 - PKill))
  }

  /** A survivor of roulette (whose weight was below the cutoff) comes out
   *  with the sign it went in with and a magnitude below cutoff / (1 - PKill). */
  lemma RouletteSurvivor(w: real, u: real)
    requires Abs(w) < WeightCutoff && Roulette(w, u).Some?
    ensures var v := Roulette(w, u).value;
      Abs(v) < WeightCutoff / (1.0 - PKill) && (w >= 0.0 <==> v >= 0.0) && Abs(w) <= Abs(v)
  {
  }

  /** The particle after a flight. */
  function Collided(p: Particle, f: Flight): (q: Particle)
    ensures q.weight == p.weight && q.leaked == f.leaked && q.x == f.x && q.zone == f.zone
  {
    p.(x := f.x, zone := f.zone, leaked := f.leaked)
  }

  /** The weight after an implicit-capture collision in zone z: the weight
   *  times the scattering probability xS / xT. */
  function Reduced(mats: seq<Material>, z: nat, w: real): real
    requires Materials(mats) && z < |mats|
  {
    w * (mats[z].xS / mats[z].xT)
  }

  /** Prefix a score to a track. */
  function Prepend(q: Particle, t: Track): (r: Track)
    ensures r.scored == [q] + t.scored
    ensures r.last == t.last && r.stop == t.stop && r.used == t.used
  {
    t.(scored := [q] + t.scored)
  }

  /** The history of particle p over flights fs with roulette draws us: at
   *  each collision the particle stops if it leaked; otherwise it scores,
   *  its weight is reduced, and it is played at roulette when the reduced
   *  weight is below the cutoff. */
  function Tracked(mats: seq<Material>, p: Particle, fs: seq<Flight>, us: seq<real>): (t: Track)
    requires Materials(mats) && InField(fs, mats)
    decreases |fs|
  {
    if fs == [] then Track(p, [], Exhausted, 0)
    else
      var q := Collided(p, fs[0]);
      if q.leaked then Track(q, [], Leaked, 0)
      else
        var r := q.(weight := Reduced(mats, q.zone, q.weight));
        if Abs(r.weight) < WeightCutoff then
          if us == [] then Track(r, [q], Exhausted, 0)
          else
            match Roulette(r.weight, us[0])
            case None => Track(r, [q], Killed, 1)
            case Some(v) =>
              var t := Tracked(mats, r.(weight := v), fs[1..], us[1..]);
              Prepend(q, t.(used := t.used + 1))
        else Prepend(q, Tracked(mats, r, fs[1..], us))
  }

  /** How a history ends: a leak leaves the particle leaked, a kill happens
   *  only below the weight cutoff, no particle scores after leaking, each
   *  flight scores at most once, and only supplied draws are used. */
  lemma {:induction false} TrackedStops(mats: seq<Material>, p: Particle, fs: seq<Flight>, us: seq<real>)
    requires Materials(mats) && InField(fs, mats)
    ensures var t := Tracked(mats, p, fs, us);
      (t.stop == Leaked <==> t.last.leaked && fs != []) &&
      (t.stop == Killed ==> Abs(t.last.weight) < WeightCutoff) &&
      (forall k :: 0 <= k < |t.scored| ==> !t.scored[k].leaked && t.scored[k].zone < |mats|) &&
      |t.scored| <= |fs| && t.used <= |us|
    decreases |fs|
  {
    if fs != [] {
      var q := Collided(p, fs[0]);
      if !q.leaked {
        var r := q.(weight := Reduced(mats, q.zone, q.weight));
        if Abs(r.weight) < WeightCutoff {
          if us != [] {
            match Roulette(r.weight, us[0])
            case None =>
            case Some(v) =>
              TrackedStops(mats, r.(weight := v), fs[1..], us[1..]);
          }
        } else {
          TrackedStops(mats, r, fs[1..], us);
        }
      }
    }
  }

  /** A particle scores with the weight it carried into the collision: the
   *  first score uses the starting weight, and each later score uses the
   *  previous scorer's reduced weight, raised by roulette when it fell below
   *  the cutoff. */
  lemma {:induction false} ScoresBeforeReduction(mats: seq<Material>, p: Particle, fs: seq<Flight>, us: seq<real>)
    requires Materials(mats) && InField(fs, mats)
    ensures var t := Tracked(mats, p, fs, us);
      (|t.scored| > 0 ==> t.scored[0].weight == p.weight) &&
      forall k :: 0 <= k < |t.scored| - 1 ==>
        t.scored[k].zone < |mats| &&
        var w := Reduced(mats, t.scored[k].zone, t.scored[k].weight);
        t.scored[k + 1].weight == w ||
        (Abs(w) < WeightCutoff && (1.0 - PKill) * t.scored[k + 1].weight == w)
    decreases |fs|
  {
    if fs != [] {
      var q := Collided(p, fs[0]);
      if !q.leaked {
        var r := q.(weight := Reduced(mats, q.zone, q.weight));
        if Abs(r.weight) < WeightCutoff {
          if us != [] {
            match Roulette(r.weight, us[0])
            case None =>
            case Some(v) =>
              ScoresBeforeReduction(mats, r.(weight := v), fs[1..], us[1..]);
          }
        } else {
          ScoresBeforeReduction(mats, r, fs[1..], us);
        }
      }
    }
  }

  /** Play roulette with the next draw: killed, or survives with its weight
   *  raised. */
  method PlayRoulette(w: real, u: real) returns (killed: bool, v: real)
    ensures killed <==> u < PKill
    ensures !killed ==> (1.0 - PKill) * v == w
    ensures killed ==> v == w
  {
    if u < PKill {
      return true, w;
    }
    v := w / (1.0 - PKill);
    killed := false;
  }

  /** Follow one history to its end, as the tracking loop does. */
  method TrackHistory(mats: seq<Material>, p: Particle, fs: seq<Flight>, us: seq<real>) returns (t: Track)
    requires Materials(mats) && InField(fs, mats)
    ensures t == Tracked(mats, p, fs, us)
  {
    var cur := p;
    var scored: seq<Particle> := [];
    var i, j := 0, 0;
    while i < |fs|
      invariant 0 <= i <= |fs| && 0 <= j <= |us|
      invariant var rest := Tracked(mats, cur, fs[i..], us[j..]);
        Tracked(mats, p, fs, us) == Track(rest.last, scored + rest.scored, rest.stop, j + rest.used)
    {
      ghost var rest0 := Tracked(mats, cur, fs[i..], us[j..]);
      ghost var before := scored;
      assert fs[i..][0] == fs[i] && fs[i..][1..] == fs[i + 1..];
      cur := Collided(cur, fs[i]);
      if cur.leaked {
        assert rest0 == Track(cur, [], Leaked, 0);
        return Track(cur, scored, Leaked, j);
      }
      var q := cur;
      scored := scored + [q];
      cur := cur.(weight := Reduced(mats, cur.zone, cur.weight));
      if Abs(cur.weight) < WeightCutoff {
        if j == |us| {
          assert us[j..] == [];
          assert rest0 == Track(cur, [q], Exhausted, 0);
          return Track(cur, scored, Exhausted, j);
        }
        assert us[j..][0] == us[j] && us[j..][1..] == us[j + 1..];
        var killed, v := PlayRoulette(cur.weight, us[j]);
        j := j + 1;
        if killed {
          assert rest0 == Track(cur, [q], Killed, 1);
          return Track(cur, scored, Killed, j);
        }
        cur := cur.(weight := v);
        ghost var rest := Tracked(mats, cur, fs[i + 1..], us[j..]);
        assert rest0 == Prepend(q, rest.(used := rest.used + 1));
        assert before + ([q] + rest.scored) == scored + rest.scored;
      } else {
        ghost var rest := Tracked(mats, cur, fs[i + 1..], us[j..]);
        assert rest0 == Prepend(q, rest);
        assert before + ([q] + rest.scored) == scored + rest.scored;
      }
      i := i + 1;
    }
    t := Track(cur, scored, Exhausted, j);
  }

  /** A particle starting a history at a sampled site: the zone holding x,
   *  the site's weight, and not leaked. */
  function Started(edges: seq<real>, s: Site): (p: Particle)
    requires Geometry(edges) && 0.0 <= s.x <= edges[|edges| - 1]
    ensures p.x == s.x && p.weight == s.weight && !p.leaked && p.zone == ZoneOf(edges, s.x)
  {
    Particle(s.x, ZoneOf(edges, s.x), s.weight, false)
  }

  /** Every site lies in the slab. */
  predicate InSlab(edges: seq<real>, sites: seq<Site>)
    requires Geometry(edges)
  {
    forall i :: 0 <= i < |sites| ==> 0.0 <= sites[i].x <= edges[|edges| - 1]
  }

  predicate AllInField(flights: seq<seq<Flight>>, mats: seq<Material>)
  {
    forall i :: 0 <= i < |flights| ==> InField(flights[i], mats)
  }

  /** The histories of a batch: each sampled site is started afresh and
   *  tracked, and the roulette draws carry over from one history to the
   *  next. */
  function Histories(mats: seq<Material>, edges: seq<real>, sites: seq<Site>,
                     flights: seq<seq<Flight>>, us: seq<real>): (ts: seq<Track>)
    requires Materials(mats) && Geometry(edges) && InSlab(edges, sites)
    requires |flights| == |sites| && AllInField(flights, mats)
    ensures |ts| == |sites|
    decreases |sites|
  {
    if sites == [] then []
    else
      var t := Tracked(mats, Started(edges, sites[0]), flights[0], us);
      TrackedStops(mats, Started(edges, sites[0]), flights[0], us);
      [t] + Histories(mats, edges, sites[1..], flights[1..], us[t.used..])
  }

  /** Each history of a batch starts unleaked, in the zone of its site, with
   *  the site's weight; each stops for one of the three reasons. */
  lemma {:induction false} HistoriesStart(mats: seq<Material>, edges: seq<real>, sites: seq<Site>,
                                          flights: seq<seq<Flight>>, us: seq<real>)
    requires Materials(mats) && Geometry(edges) && InSlab(edges, sites)
    requires |flights| == |sites| && AllInField(flights, mats)
    ensures var ts := Histories(mats, edges, sites, flights, us);
      forall i :: 0 <= i < |ts| ==>
        (ts[i].stop == Leaked <==> ts[i].last.leaked && flights[i] != []) &&
        (|ts[i].scored| > 0 ==> !ts[i].scored[0].leaked && ts[i].scored[0].weight == sites[i].weight)
    decreases |sites|
  {
    if sites != [] {
      var p := Started(edges, sites[0]);
      TrackedStops(mats, p, flights[0], us);
      ScoresBeforeReduction(mats, p, flights[0], us);
      var t := Tracked(mats, p, flights[0], us);
      HistoriesStart(mats, edges, sites[1..], flights[1..], us[t.used..]);
    }
  }

  /** The first history of a batch, then the histories of the rest of the
   *  sites with the draws the first one left over. */
  lemma HistoriesCons(mats: seq<Material>, edges: seq<real>, sites: seq<Site>,
                      flights: seq<seq<Flight>>, us: seq<real>, t: Track)
    requires Materials(mats) && Geometry(edges) && InSlab(edges, sites)
    requires |flights| == |sites| && AllInField(flights, mats) && sites != []
    requires t == Tracked(mats, Started(edges, sites[0]), flights[0], us)
    ensures t.used <= |us| && InSlab(edges, sites[1..]) && AllInField(flights[1..], mats)
    ensures Histories(mats, edges, sites, flights, us)
      == [t] + Histories(mats, edges, sites[1..], flights[1..], us[t.used..])
  {
    TrackedStops(mats, Started(edges, sites[0]), flights[0], us);
  }

  /** One step of a batch: the histories already tracked, the next one and
   *  those still to come make up the whole batch. */
  lemma HistoriesStep(mats: seq<Material>, edges: seq<real>, sites: seq<Site>,
                      flights: seq<seq<Flight>>, us: seq<real>, whole: seq<Track>,
                      done: seq<Track>, t: Track)
    requires Materials(mats) && Geometry(edges) && InSlab(edges, sites)
    requires |flights| == |sites| && AllInField(flights, mats) && sites != []
    requires whole == done + Histories(mats, edges, sites, flights, us)
    requires t == Tracked(mats, Started(edges, sites[0]), flights[0], us)
    ensures t.used <= |us| && InSlab(edges, sites[1..]) && AllInField(flights[1..], mats)
    ensures whole == (done + [t]) + Histories(mats, edges, sites[1..], flights[1..], us[t.used..])
  {
    HistoriesCons(mats, edges, sites, flights, us, t);
    var later := Histories(mats, edges, sites[1..], flights[1..], us[t.used..]);
    assert done + ([t] + later) == (done + [t]) + later;
  }

  /** A counter shared by all trackers: the number constructed so far. */
  class Counter {
    var total: nat

    constructor ()
      ensures total == 0
    {
      total := 0;
    }
  }

  class Markov {
    const id: nat
    const seed: seq<nat>
    const materials: seq<Material>
    const edges: seq<real>

    /** A new tracker takes the next number from the shared counter as its
     *  ID and appends it to its seed, so trackers built one after another
     *  have distinct IDs and distinct seeds. */
    constructor (seedIn: seq<nat>, materialsIn: seq<Material>, edgesIn: seq<real>, counter: Counter)
      modifies counter
      ensures counter.total == old(counter.total) + 1
      ensures id == counter.total && id > old(counter.total)
      ensures seed == seedIn + [id]
      ensures materials == materialsIn && edges == edgesIn
    {
      counter.total := counter.total + 1;
      id := counter.total;
      seed := seedIn + [counter.total];
      materials := materialsIn;
      edges := edgesIn;
    }

    /** Sample and track exactly n histories; sites are the samples drawn
     *  from the current source, flights each history's collisions. */
    method Transport(n: nat, sites: seq<Site>, flights: seq<seq<Flight>>, us: seq<real>) returns (ts: seq<Track>)
      requires Materials(materials) && Geometry(edges) && InSlab(edges, sites)
      requires |sites| == n && |flights| == n && AllInField(flights, materials)
      ensures |ts| == n
      ensures ts == Histories(materials, edges, sites, flights, us)
    {
      ghost var whole := Histories(materials, edges, sites, flights, us);
      ts := [];
      var rest := us;
      var rs, rf := sites, flights;
      while rs != []
        invariant |rf| == |rs|
        invariant InSlab(edges, rs) && AllInField(rf, materials)
        invariant whole == ts + Histories(materials, edges, rs, rf, rest)
        decreases |rs|
      {
        var t := TrackHistory(materials, Started(edges, rs[0]), rf[0], rest);
        HistoriesStep(materials, edges, rs, rf, rest, whole, ts, t);
        ts := ts + [t];
        rest := rest[t.used..];
        rs, rf := rs[1..], rf[1..];
      }
    }
  }
}
