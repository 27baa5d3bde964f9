/**
 * The two rate limits of one QER slot over any sequence of frames through the whole program, and of
 * messages for other sessions between them: which frames meet the slot's limiter, what its window
 * becomes, and how many bits get through.
 */
module SlotRate {
  import opened Base
  import opened PdrRecords
  import opened Rules
  import opened SessionSpec
  import W = World
  import opened Runs
  import opened Isolation
  import opened Icmp
  import opened Pipeline
  import opened Forwarding
  import opened Uplink
  import opened Dataplane
  import L = RateLimiter

  datatype Side = Down | Up

  function RateOf(q: QerInfo, side: Side): nat { if side.Down? then q.maxBitrateDL else q.maxBitrateUL }

  function StartOf(q: QerInfo, side: Side): nat { if side.Down? then q.startDL else q.startUL }

  /** A call of a limiter: the slot it is for, and the packet it sees. */
  datatype Visit = Visit(slot: nat, packet: L.Arrival)

  // ---------------------------------------------------------------- one frame

  /** FAR and gate come before the limiter. */
  function PoliceVisit(t: Tables, sel: Selection, size: nat, now: nat): Option<Visit> {
    if sel.farId >= |t.fars| || !Tunnels(t.fars[sel.farId]) then None
    else if sel.qerId >= |t.qers| || t.qers[sel.qerId].gateStatusDL != 0 then None
    else Some(Visit(sel.qerId, L.Arrival(size, now)))
  }

  function DownlinkVisit(t: Tables, f: seq<Byte>, now: nat): Option<Visit>
    requires |f| >= 34
  {
    var key := Downlink4(f[30..34]);
    if key !in t.pdrs then None
    else
      match Classify(Some(t.pdrs[key]), Inspect(f, 14))
      case PassUp => None
      case Use(sel) => PoliceVisit(t, sel, |f|, now)
  }

  function DownlinkIp6Visit(t: Tables, f: seq<Byte>, now: nat, v6: bool): Option<Visit>
    requires |f| >= 54
  {
    var key := Downlink6(f[38..54]);
    if key !in t.pdrs then None
    else
      match Choose(t.pdrs[key], v6)
      case PassUp => None
      case Use(sel) => PoliceVisit(t, sel, |f|, now)
  }

  /** A ping to the user plane itself meets the downlink limiter on its way back. */
  function LeaveVisit(t: Tables, f: seq<Byte>, ip4: bool, config: Config, later: nat): Option<Visit>
    requires ip4 ==> |f| >= 34
  {
    if ip4 && IsLocal(config, f[30..34]) && f[23] == 1 then
      var (g, ok) := EchoReply(f, 14);
      if ok then DownlinkVisit(t, g, later) else None
    else None
  }

  /** A G-PDU meets the uplink limiter. */
  function UplinkMeets(t: Tables, f: seq<Byte>, at: Layers, s: Surroundings): Option<Visit>
    requires at.gtp + 8 <= |f|
  {
    match SelectByTeid(t, f, at.gtp, at.cursor, s.v6)
    case PassUp => None
    case Use(sel) =>
      if sel.farId >= |t.fars| || t.fars[sel.farId].action / 2 % 2 != 1 then None
      else if sel.qerId >= |t.qers| || t.qers[sel.qerId].gateStatusUL != 0 then None
      else Some(Visit(sel.qerId, L.Arrival(|f|, s.now)))
  }

  /** And if it is a ping to the user plane itself, the downlink limiter on its way back. */
  function PingMeets(t: Tables, f: seq<Byte>, at: Layers, headroom: nat, config: Config, s: Surroundings)
    : Option<Visit>
    requires |f| >= 34 && at.udp + 8 <= |f| && at.gtp + 8 <= |f|
  {
    match SelectByTeid(t, f, at.gtp, at.cursor, s.v6)
    case PassUp => None
    case Use(sel) =>
      match PoliceUplink(t, sel, ChargedByTeid(t, f, at.gtp), |f|, s.now)
      case (_, None) => None
      case (u, Some(far)) =>
        match Outgoing(f, at.udp, at.gtp, sel.outerHeaderRemoval, far, headroom, config.n9)
        case (_, None) => None
        case (g, Some((ip4, _))) => LeaveVisit(u, g, ip4, config, s.later)
  }

  /** The call of the limiter of one side a frame leads to. */
  function VisitOf(side: Side, config: Config, t: Tables, f: seq<Byte>, headroom: nat, s: Surroundings)
    : Option<Visit>
  {
    PathFits(config, f);
    var path := PathOf(config, f);
    if path.GtpPdu? then
      if side.Up? then UplinkMeets(t, f, LayersOf(f), s) else PingMeets(t, f, LayersOf(f), headroom, config, s)
    else if side.Up? then None
    else if path.Icmp4? || path.Udp4? || path.Tcp4? then DownlinkVisit(t, f, s.now)
    else if path.Udp6? || path.Tcp6? then DownlinkIp6Visit(t, f, s.now, s.v6)
    else None
  }

  /** The window of slot g after a visit. */
  function MovedBy(v: Option<Visit>, g: nat, start: nat, rate: nat): nat {
    if v.Some? && v.value.slot == g then L.Limit(start, v.value.packet.size, rate, v.value.packet.now).0 else start
  }

  /** From t to u this side of slot g keeps its rate, and its window moves by the visit. */
  ghost predicate Follows(side: Side, t: Tables, u: Tables, v: Option<Visit>, g: nat) {
    g < |t.qers| ==>
      && g < |u.qers|
      && RateOf(u.qers[g], side) == RateOf(t.qers[g], side)
      && StartOf(u.qers[g], side) == MovedBy(v, g, StartOf(t.qers[g], side), RateOf(t.qers[g], side))
  }

  lemma DownlinkFollows(side: Side, t: Tables, f: seq<Byte>, headroom: nat, config: Config, now: nat, g: nat)
    requires |f| >= 34
    ensures Follows(side, t, Downlink(t, f, headroom, config.n3, now).0,
                    if side.Down? then DownlinkVisit(t, f, now) else None, g)
  {
  }

  lemma DownlinkIp6Follows(side: Side, t: Tables, f: seq<Byte>, headroom: nat, config: Config, now: nat, v6: bool,
                           g: nat)
    requires |f| >= 54
    ensures Follows(side, t, DownlinkIp6(t, f, headroom, config.n3, now, v6).0,
                    if side.Down? then DownlinkIp6Visit(t, f, now, v6) else None, g)
  {
  }

  lemma LeaveFollows(side: Side, t: Tables, f: seq<Byte>, ip4: bool, headroom: nat, config: Config, later: nat, g: nat)
    requires ip4 ==> |f| >= 34
    ensures Follows(side, t, Leave(t, f, ip4, headroom, config, later).0,
                    if side.Down? then LeaveVisit(t, f, ip4, config, later) else None, g)
  {
    if ip4 && IsLocal(config, f[30..34]) && f[23] == 1 {
      var (h, ok) := EchoReply(f, 14);
      if ok { DownlinkFollows(side, t, h, headroom, config, later, g); }
    }
  }

  /** The uplink limiter moves the uplink window of its slot, and no downlink window. */
  lemma PoliceUplinkFollows(side: Side, t: Tables, f: seq<Byte>, at: Layers, s: Surroundings, g: nat)
    requires at.gtp + 8 <= |f| && SelectByTeid(t, f, at.gtp, at.cursor, s.v6).Use?
    ensures var sel := SelectByTeid(t, f, at.gtp, at.cursor, s.v6).selection;
      Follows(side, t, PoliceUplink(t, sel, ChargedByTeid(t, f, at.gtp), |f|, s.now).0,
              if side.Up? then UplinkMeets(t, f, at, s) else None, g)
  {
  }

  /** Two steps of which at most one visits the slot. */
  lemma FollowsThen(side: Side, t: Tables, u: Tables, w: Tables, v: Option<Visit>, x: Option<Visit>, g: nat)
    requires Follows(side, t, u, v, g) && Follows(side, u, w, x, g) && (v.None? || x.None?)
    ensures Follows(side, t, w, if v.None? then x else v, g)
  {
  }

  lemma UplinkFollows(side: Side, t: Tables, f: seq<Byte>, at: Layers, headroom: nat, config: Config, s: Surroundings,
                      g: nat)
    requires |f| >= 34 && at.udp + 8 <= |f| && at.gtp + 8 <= |f|
    ensures Follows(side, t, UplinkPath(t, f, at.udp, at.gtp, at.cursor, headroom, config, s.now, s.later, s.v6).0,
                    if side.Up? then UplinkMeets(t, f, at, s) else PingMeets(t, f, at, headroom, config, s), g)
  {
    match SelectByTeid(t, f, at.gtp, at.cursor, s.v6) {
      case PassUp =>
      case Use(sel) =>
        PoliceUplinkFollows(side, t, f, at, s, g);
        var (u, far) := PoliceUplink(t, sel, ChargedByTeid(t, f, at.gtp), |f|, s.now);
        if far.Some? {
          var (h, next) := Outgoing(f, at.udp, at.gtp, sel.outerHeaderRemoval, far.value, headroom, config.n9);
          if next.Some? {
            LeaveFollows(side, u, h, next.value.0, next.value.1, config, s.later, g);
            FollowsThen(side, t, u, Leave(u, h, next.value.0, next.value.1, config, s.later).0,
                        if side.Up? then UplinkMeets(t, f, at, s) else None,
                        if side.Down? then LeaveVisit(u, h, next.value.0, config, s.later) else None, g);
          }
        }
    }
  }

  lemma ProgramFollows(side: Side, config: Config, t: Tables, f: seq<Byte>, headroom: nat, s: Surroundings, g: nat)
    ensures Follows(side, t, Program(config, t, f, headroom, s).0, VisitOf(side, config, t, f, headroom, s), g)
  {
    var path, at := PathOf(config, f), LayersOf(f);
    PathFits(config, f);
    N6Handled(path, config, t, f, at, headroom, s);
    if |f| >= 34 { DownlinkFollows(side, t, f, headroom, config, s.now, g); }
    if |f| >= 54 { DownlinkIp6Follows(side, t, f, headroom, config, s.now, s.v6, g); }
    if path == GtpPdu {
      PduHandled(config, t, f, at, headroom, s);
      UplinkFollows(side, t, f, at, headroom, config, s, g);
    } else if !ReachesTables(path) {
      RestHandled(path, config, t, f, at, headroom, s);
    }
  }

  // ---------------------------------------------------------------- a sequence of frames and messages

  /** A frame through the program, or tables as the control plane leaves them. */
  datatype Happening = Frame(frame: seq<Byte>, headroom: nat, s: Surroundings) | Message(tables: Tables)

  function StepTables(config: Config, t: Tables, e: Happening): Tables {
    if e.Frame? then Program(config, t, e.frame, e.headroom, e.s).0 else e.tables
  }

  function TablesAfter(config: Config, t: Tables, run: seq<Happening>): Tables {
    if run == [] then t else StepTables(config, TablesAfter(config, t, run[..|run| - 1]), run[|run| - 1])
  }

  /** The slot is there, before and after, and the same. */
  predicate SlotKept(t: Tables, u: Tables, g: nat) { g < |t.qers| && g < |u.qers| && u.qers[g] == t.qers[g] }

  /** No message of the run touches slot g. */
  predicate KeepsSlot(config: Config, t: Tables, run: seq<Happening>, g: nat) {
    run == [] || (
      var before, last := run[..|run| - 1], run[|run| - 1];
      KeepsSlot(config, t, before, g) && (last.Message? ==> SlotKept(TablesAfter(config, t, before), last.tables, g)))
  }

  /** Messages for other sessions are such messages, for every slot a session's QERs own. */
  lemma OtherMessageKeepsSlot(env: Env, w: State, e: Event, key: W.SessKey, id: nat)
    requires Inv(w.shared, w.sessions) && WellFormed(env, w, e) && !e.Traffic?
    requires key in w.sessions && !Targets(w, e, key) && id in w.sessions[key].qers
    ensures SlotKept(TablesIn(w.shared), TablesIn(Step(env, w, e).shared), w.sessions[key].qers[id].globalId)
  {
    StepIsolates(env, w, e, key);
    assert Qers(w.sessions)[key][id] == w.sessions[key].qers[id];
  }

  /** The packet of a visit to slot g, if it is one. */
  function AtSlot(v: Option<Visit>, g: nat): seq<L.Arrival> {
    if v.Some? && v.value.slot == g then [v.value.packet] else []
  }

  function StepVisit(side: Side, config: Config, t: Tables, e: Happening): Option<Visit> {
    if e.Frame? then VisitOf(side, config, t, e.frame, e.headroom, e.s) else None
  }

  /** The packets that meet one side's limiter of slot g, in order. */
  function VisitsOf(side: Side, config: Config, t: Tables, run: seq<Happening>, g: nat): seq<L.Arrival> {
    if run == [] then []
    else
      var before := run[..|run| - 1];
      VisitsOf(side, config, t, before, g)
      + AtSlot(StepVisit(side, config, TablesAfter(config, t, before), run[|run| - 1]), g)
  }

  lemma {:induction false} WindowOfPrefix(run: seq<L.Arrival>, more: seq<L.Arrival>, rate: nat, i: nat)
    requires i <= |run|
    ensures L.WindowAt(run + more, rate, i) == L.WindowAt(run, rate, i)
  {
    if i == 0 {
    } else {
      WindowOfPrefix(run, more, rate, i - 1);
    }
  }

  /** Slot g has the rate it had in t, and the window the limiter has after the packets. */
  ghost predicate WindowIs(side: Side, t: Tables, u: Tables, g: nat, visits: seq<L.Arrival>)
    requires g < |t.qers|
  {
    && g < |u.qers|
    && RateOf(u.qers[g], side) == RateOf(t.qers[g], side)
    && StartOf(u.qers[g], side) == L.WindowAt(visits, RateOf(t.qers[g], side), |visits|)
  }

  lemma WindowMoves(side: Side, t: Tables, u: Tables, w: Tables, g: nat, visits: seq<L.Arrival>, v: Option<Visit>)
    requires g < |t.qers| && WindowIs(side, t, u, g, visits) && Follows(side, u, w, v, g)
    ensures WindowIs(side, t, w, g, visits + AtSlot(v, g))
  {
    var rate := RateOf(t.qers[g], side);
    if v.Some? && v.value.slot == g {
      WindowOfPrefix(visits, [v.value.packet], rate, |visits|);
    } else {
      assert visits + AtSlot(v, g) == visits;
    }
  }

  /** The window of a fresh slot is always the limiter's on the packets that met it, at the slot's rate. */
  lemma {:induction false} WindowFollowsVisits(side: Side, config: Config, t: Tables, run: seq<Happening>, g: nat)
    requires g < |t.qers| && StartOf(t.qers[g], side) == 0 && KeepsSlot(config, t, run, g)
    ensures WindowIs(side, t, TablesAfter(config, t, run), g, VisitsOf(side, config, t, run, g))
  {
    if run == [] {
    } else {
      var before, last := run[..|run| - 1], run[|run| - 1];
      var u := TablesAfter(config, t, before);
      WindowFollowsVisits(side, config, t, before, g);
      StepFollows(side, config, u, last, g);
      WindowMoves(side, t, u, StepTables(config, u, last), g, VisitsOf(side, config, t, before, g),
                  StepVisit(side, config, u, last));
    }
  }

  lemma StepFollows(side: Side, config: Config, t: Tables, e: Happening, g: nat)
    requires e.Message? ==> SlotKept(t, e.tables, g)
    ensures Follows(side, t, StepTables(config, t, e), StepVisit(side, config, t, e), g)
  {
    if e.Frame? { ProgramFollows(side, config, t, e.frame, e.headroom, e.s, g); }
  }

  /**
   * A downlink frame that meets the limiter of slot g after any such sequence is dropped exactly when
   * the limiter, on the packets that met the slot before, drops it.
   */
  lemma FrameIsLimitedIff(config: Config, t: Tables, run: seq<Happening>, f: seq<Byte>, headroom: nat,
                          s: Surroundings, g: nat)
    requires g < |t.qers| && t.qers[g].startDL == 0 && KeepsSlot(config, t, run, g) && |f| >= 34
    requires var path := PathOf(config, f); path.Icmp4? || path.Udp4? || path.Tcp4?
    requires DownlinkVisit(TablesAfter(config, t, run), f, s.now) == Some(Visit(g, L.Arrival(|f|, s.now)))
    ensures var u, visits := TablesAfter(config, t, run), VisitsOf(Down, config, t, run, g);
      Program(config, u, f, headroom, s).2 == Dropped
      <==> !L.Passes(visits + [L.Arrival(|f|, s.now)], t.qers[g].maxBitrateDL, |visits|)
  {
    var visits := VisitsOf(Down, config, t, run, g);
    WindowFollowsVisits(Down, config, t, run, g);
    WindowOfPrefix(visits, [L.Arrival(|f|, s.now)], t.qers[g].maxBitrateDL, |visits|);
    PathFits(config, f);
    N6Handled(PathOf(config, f), config, TablesAfter(config, t, run), f, LayersOf(f), headroom, s);
  }

  /** Likewise a G-PDU: the limiter drops it with the tables unchanged, or it is forwarded. */
  lemma GpduIsLimitedIff(config: Config, t: Tables, run: seq<Happening>, f: seq<Byte>, headroom: nat,
                         s: Surroundings, g: nat)
    requires g < |t.qers| && t.qers[g].startUL == 0 && KeepsSlot(config, t, run, g)
    requires PathOf(config, f).GtpPdu? && Fits(PathOf(config, f), f, LayersOf(f))
    requires UplinkMeets(TablesAfter(config, t, run), f, LayersOf(f), s) == Some(Visit(g, L.Arrival(|f|, s.now)))
    ensures var u, visits, at := TablesAfter(config, t, run), VisitsOf(Up, config, t, run, g), LayersOf(f);
      var sel := SelectByTeid(u, f, at.gtp, at.cursor, s.v6).selection;
      Program(config, u, f, headroom, s)
      == if L.Passes(visits + [L.Arrival(|f|, s.now)], t.qers[g].maxBitrateUL, |visits|) then
           Forward(PoliceUplink(u, sel, ChargedByTeid(u, f, at.gtp), |f|, s.now).0, f, at.udp, at.gtp,
                   sel.outerHeaderRemoval, u.fars[sel.farId], headroom, config, s.later)
         else (u, f, Dropped)
  {
    var visits := VisitsOf(Up, config, t, run, g);
    WindowFollowsVisits(Up, config, t, run, g);
    WindowOfPrefix(visits, [L.Arrival(|f|, s.now)], t.qers[g].maxBitrateUL, |visits|);
    PduHandled(config, TablesAfter(config, t, run), f, LayersOf(f), headroom, s);
  }

  /** What the limiter of slot g, with the window and rate in the tables, says to the visit. */
  function Says(side: Side, t: Tables, v: Option<Visit>, g: nat): seq<bool> {
    if v.Some? && v.value.slot == g && g < |t.qers| then
      [L.Limit(StartOf(t.qers[g], side), v.value.packet.size, RateOf(t.qers[g], side), v.value.packet.now).1]
    else []
  }

  /** Its verdicts on the packets that meet it, in order. */
  function Verdicts(side: Side, config: Config, t: Tables, run: seq<Happening>, g: nat): seq<bool> {
    if run == [] then []
    else
      var before := run[..|run| - 1];
      var u := TablesAfter(config, t, before);
      Verdicts(side, config, t, before, g) + Says(side, u, StepVisit(side, config, u, run[|run| - 1]), g)
  }

  /** The verdicts are those of one limiter that starts at 0 on the packets that met the slot. */
  ghost predicate VerdictsAre(visits: seq<L.Arrival>, verdicts: seq<bool>, rate: nat) {
    |verdicts| == |visits| && forall i :: 0 <= i < |visits| ==> verdicts[i] == L.Passes(visits, rate, i)
  }

  lemma OneMoreVerdict(side: Side, t: Tables, u: Tables, g: nat, visits: seq<L.Arrival>, verdicts: seq<bool>,
                       v: Option<Visit>)
    requires g < |t.qers| && WindowIs(side, t, u, g, visits)
    requires VerdictsAre(visits, verdicts, RateOf(t.qers[g], side))
    ensures VerdictsAre(visits + AtSlot(v, g), verdicts + Says(side, u, v, g), RateOf(t.qers[g], side))
  {
    var rate, more := RateOf(t.qers[g], side), visits + AtSlot(v, g);
    forall i | 0 <= i < |more| ensures (verdicts + Says(side, u, v, g))[i] == L.Passes(more, rate, i) {
      WindowOfPrefix(visits, AtSlot(v, g), rate, i);
    }
  }

  lemma {:induction false} SlotVerdicts(side: Side, config: Config, t: Tables, run: seq<Happening>, g: nat)
    requires g < |t.qers| && StartOf(t.qers[g], side) == 0 && KeepsSlot(config, t, run, g)
    ensures VerdictsAre(VisitsOf(side, config, t, run, g), Verdicts(side, config, t, run, g), RateOf(t.qers[g], side))
  {
    if run == [] {
    } else {
      var before, last := run[..|run| - 1], run[|run| - 1];
      var u := TablesAfter(config, t, before);
      SlotVerdicts(side, config, t, before, g);
      WindowFollowsVisits(side, config, t, before, g);
      OneMoreVerdict(side, t, u, g, VisitsOf(side, config, t, before, g), Verdicts(side, config, t, before, g),
                     StepVisit(side, config, u, last));
    }
  }

  /** The bits of the packets from i up to j that were let through. */
  function BitsThrough(visits: seq<L.Arrival>, verdicts: seq<bool>, i: nat, j: nat): nat
    requires i <= j <= |visits| == |verdicts|
    decreases j
  {
    if i == j then 0
    else BitsThrough(visits, verdicts, i, j - 1) + if verdicts[j - 1] then 8 * visits[j - 1].size else 0
  }

  lemma {:induction false} BitsThroughAre(visits: seq<L.Arrival>, verdicts: seq<bool>, rate: nat, i: nat, j: nat)
    requires i <= j <= |visits| && VerdictsAre(visits, verdicts, rate) && rate > 0
    ensures BitsThrough(visits, verdicts, i, j) == L.AdmittedBits(visits, rate, i, j)
    decreases j
  {
    if i == j {
    } else {
      L.WindowIsStart(visits, rate, j - 1);
      BitsThroughAre(visits, verdicts, rate, i, j - 1);
    }
  }

  lemma VerdictsBound(visits: seq<L.Arrival>, verdicts: seq<bool>, rate: nat, i: nat, j: nat)
    requires VerdictsAre(visits, verdicts, rate) && 1 <= rate <= L.NSEC && L.Realistic(visits)
    requires i <= j < |visits| && verdicts[i] && verdicts[j]
    ensures L.FitsIn(BitsThrough(visits, verdicts, i, j + 1), rate, L.Span(L.Loads(visits, rate), i, j))
  {
    L.WindowIsStart(visits, rate, i);
    L.WindowIsStart(visits, rate, j);
    BitsThroughAre(visits, verdicts, rate, i, j + 1);
    L.AdmittedBitsBound(visits, rate, i, j);
  }

  /**
   * Over any such sequence, from one packet a fresh slot's limiter lets through to another: the bits let
   * through are at most twice the slot's rate over the span, and at most once that when the rate
   * divides 10^9.
   */
  lemma SlotBitsBound(side: Side, config: Config, t: Tables, run: seq<Happening>, g: nat, i: nat, j: nat)
    requires g < |t.qers| && StartOf(t.qers[g], side) == 0 && KeepsSlot(config, t, run, g)
    requires 1 <= RateOf(t.qers[g], side) <= L.NSEC && L.Realistic(VisitsOf(side, config, t, run, g))
    requires i <= j < |Verdicts(side, config, t, run, g)| == |VisitsOf(side, config, t, run, g)|
    requires Verdicts(side, config, t, run, g)[i] && Verdicts(side, config, t, run, g)[j]
    ensures var visits, rate := VisitsOf(side, config, t, run, g), RateOf(t.qers[g], side);
      L.FitsIn(BitsThrough(visits, Verdicts(side, config, t, run, g), i, j + 1), rate,
               L.Span(L.Loads(visits, rate), i, j))
  {
    SlotVerdicts(side, config, t, run, g);
    VerdictsBound(VisitsOf(side, config, t, run, g), Verdicts(side, config, t, run, g), RateOf(t.qers[g], side), i, j);
  }
}
