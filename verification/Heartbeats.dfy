/**
 The heartbeat tracker (src/mqtt_client.py): callbacks of the MQTT thread write it, the check
 cycle reads it. Payloads are taken stripped and lower-cased; times are the monotonic clock.
 */
module Heartbeats {
  import opened Common
  import opened Settings

  datatype Topic = HealthyTopic | StateTopic | OtherTopic

  datatype Callback =
    | Connected(at: real)
    | ConnectionRefused
    | Disconnected
    | Message(car: string, topic: Topic, payload: string, at: real)

  datatype Car = Car(healthy: Option<bool>, heardAt: Option<real>, state: Option<string>)

  /** `order` lists the known cars as they were first seen. */
  datatype Tracker = Tracker(cars: map<string, Car>, order: seq<string>, connectedSince: Option<real>)

  datatype LoggerHealth = LoggerHealth(healthy: Option<bool>, stale: bool, car: Option<string>)

  function ParseBool(payload: string): Option<bool> {
    if payload in {"true", "1", "on", "online"} then Some(true)
    else if payload in {"false", "0", "off", "offline"} then Some(false)
    else None
  }

  predicate IsActive(state: Option<string>) {
    state in {Some("driving"), Some("charging")}
  }

  function Limit(cfg: Config, state: Option<string>): real {
    if IsActive(state) then cfg.staleSeconds as real else cfg.parkedStaleSeconds as real
  }

  function Hear(c: Car, topic: Topic, payload: string, now: real): Car {
    match topic
    case HealthyTopic => c.(healthy := ParseBool(payload), heardAt := Some(now))
    case StateTopic => c.(state := Some(payload))
    case OtherTopic => c
  }

  function Apply(t: Tracker, cb: Callback): Tracker {
    match cb
    case Connected(at) => t.(connectedSince := Some(at))
    case ConnectionRefused => t
    case Disconnected => t.(connectedSince := None)
    case Message(car, topic, payload, at) =>
      var known := if car in t.cars then t.cars[car] else Car(None, None, None);
      t.(cars := t.cars[car := Hear(known, topic, payload, at)],
         order := if car in t.cars then t.order else t.order + [car])
  }

  function Stale(cfg: Config, c: Car, connectedSince: Option<real>, now: real): bool {
    && cfg.stalenessDetection
    && c.heardAt.Some?
    && connectedSince.Some?
    && var reference := if c.heardAt.value > connectedSince.value then c.heardAt.value else connectedSince.value;
       now - reference > Limit(cfg, c.state)
  }

  function FirstUnhealthy(cars: map<string, Car>, order: seq<string>): Option<string>
    requires forall car | car in order :: car in cars
  {
    if order == [] then None
    else if cars[order[0]].healthy == Some(false) then Some(order[0])
    else FirstUnhealthy(cars, order[1..])
  }

  ghost predicate TrackerInv(t: Tracker) {
    && (forall car :: car in t.order <==> car in t.cars)
    && (forall i, j | 0 <= i < j < |t.order| :: t.order[i] != t.order[j])
  }

  function Select(t: Tracker, primary: Option<string>): string
    requires t.order != [] && forall car | car in t.order :: car in t.cars
  {
    if primary.Some? && primary.value in t.cars then primary.value
    else
      var unhealthy := FirstUnhealthy(t.cars, t.order);
      if unhealthy.Some? then unhealthy.value else t.order[0]
  }

  lemma {:induction false} FirstUnhealthyIsUnhealthy(cars: map<string, Car>, order: seq<string>)
    requires forall car | car in order :: car in cars
    ensures match FirstUnhealthy(cars, order)
            case Some(u) =>
              exists i :: 0 <= i < |order| && order[i] == u && cars[u].healthy == Some(false)
                          && forall j | 0 <= j < i :: cars[order[j]].healthy != Some(false)
            case None => forall car | car in order :: cars[car].healthy != Some(false)
  {
    if order != [] {
      var rest := order[1..];
      FirstUnhealthyIsUnhealthy(cars, rest);
      assert order == [order[0]] + rest;
      var found := FirstUnhealthy(cars, rest);
      if cars[order[0]].healthy != Some(false) && found.Some? {
        var i :| 0 <= i < |rest| && rest[i] == found.value && cars[rest[i]].healthy == Some(false)
                 && forall j | 0 <= j < i :: cars[rest[j]].healthy != Some(false);
        assert order[i + 1] == found.value;
      }
    }
  }

  class WatchdogMqtt {
    const config: Config
    var cars: map<string, Car>
    var order: seq<string>
    var connectedSince: Option<real>

    ghost function View(): Tracker
      reads this
    {
      Tracker(cars, order, connectedSince)
    }

    constructor (config: Config)
      ensures this.config == config && View() == Observed([]) && TrackerInv(View())
    {
      this.config := config;
      cars := map[];
      order := [];
      connectedSince := None;
    }

    method OnConnect(refused: bool, now: real)
      modifies this
      ensures View() == Apply(old(View()), if refused then ConnectionRefused else Connected(now))
    {
      if refused {
        return;
      }
      connectedSince := Some(now);
    }

    method OnDisconnect()
      modifies this
      ensures View() == Apply(old(View()), Disconnected)
    {
      connectedSince := None;
    }

    method OnMessage(car: string, topic: Topic, payload: string, now: real)
      requires TrackerInv(View())
      modifies this
      ensures View() == Apply(old(View()), Message(car, topic, payload, now))
      ensures TrackerInv(View())
    {
      if car !in cars {
        cars := cars[car := Car(None, None, None)];
        order := order + [car];
      }
      var c := cars[car];
      match topic {
        case HealthyTopic =>
          cars := cars[car := c.(healthy := ParseBool(payload), heardAt := Some(now))];
        case StateTopic =>
          cars := cars[car := c.(state := Some(payload))];
        case OtherTopic =>
      }
    }

    /** The verdict about the vehicle logger, read in one step. */
    method Health(primary: Option<string>, now: real) returns (h: LoggerHealth)
      requires TrackerInv(View())
      ensures cars == map[] <==> h.car == None
      ensures h.car == None ==> h == LoggerHealth(None, false, None)
      ensures h.car.Some? ==>
                && h.car.value in cars
                && h.healthy == cars[h.car.value].healthy
                && h.stale == Stale(config, cars[h.car.value], connectedSince, now)
      ensures primary.Some? && primary.value in cars ==> h.car == primary
      ensures !(primary.Some? && primary.value in cars) && (exists car :: car in cars && cars[car].healthy == Some(false)) ==>
                h.healthy == Some(false)
      ensures !(primary.Some? && primary.value in cars) && cars != map[] ==>
                exists i :: 0 <= i < |order| && h.car == Some(order[i])
                            && (h.healthy == Some(false) || i == 0)
                            && forall j | 0 <= j < i :: cars[order[j]].healthy != Some(false)
    {
      if cars == map[] {
        return LoggerHealth(None, false, None);
      }
      assert order != [] by {
        var car :| car in cars;
        assert car in order;
      }
      FirstUnhealthyIsUnhealthy(cars, order);
      assert order[0] in order;
      var selected := Select(Tracker(cars, order, connectedSince), primary);
      var c := cars[selected];
      h := LoggerHealth(c.healthy, Stale(config, c, connectedSince, now), Some(selected));
    }
  }

  // ---- The tracker as a function of the callback history ---------------------------------------

  function Observed(cbs: seq<Callback>): Tracker {
    if cbs == [] then Tracker(map[], [], None) else Apply(Observed(Front(cbs)), Last(cbs))
  }

  predicate IsFrom(cb: Callback, car: string) {
    cb.Message? && cb.car == car
  }

  predicate IsBeat(cb: Callback, car: string) {
    IsFrom(cb, car) && cb.topic == HealthyTopic
  }

  predicate IsStateReport(cb: Callback, car: string) {
    IsFrom(cb, car) && cb.topic == StateTopic
  }

  predicate IsLink(cb: Callback) {
    cb.Connected? || cb.Disconnected?
  }

  ghost predicate LastBeat(cbs: seq<Callback>, car: string, i: nat) {
    i < |cbs| && IsBeat(cbs[i], car) && forall j | i < j < |cbs| :: !IsBeat(cbs[j], car)
  }

  ghost predicate LastStateReport(cbs: seq<Callback>, car: string, i: nat) {
    i < |cbs| && IsStateReport(cbs[i], car) && forall j | i < j < |cbs| :: !IsStateReport(cbs[j], car)
  }

  /** Callback `i` opened the connection that is still up. */
  ghost predicate OpenedBy(cbs: seq<Callback>, i: nat) {
    i < |cbs| && cbs[i].Connected? && forall j | i < j < |cbs| :: !IsLink(cbs[j])
  }

  /** What a payload of the health topic says. */
  ghost predicate Says(payload: string, healthy: Option<bool>) {
    && (healthy == Some(true) <==> payload in {"true", "1", "on", "online"})
    && (healthy == Some(false) <==> payload in {"false", "0", "off", "offline"})
  }

  ghost predicate HeardFits(cbs: seq<Callback>, car: string, c: Car) {
    match c.heardAt
    case None => c.healthy == None && forall j | 0 <= j < |cbs| :: !IsBeat(cbs[j], car)
    case Some(at) => exists i: nat :: LastBeat(cbs, car, i) && cbs[i].at == at && Says(cbs[i].payload, c.healthy)
  }

  ghost predicate StateFits(cbs: seq<Callback>, car: string, c: Car) {
    match c.state
    case None => forall j | 0 <= j < |cbs| :: !IsStateReport(cbs[j], car)
    case Some(payload) => exists i: nat :: LastStateReport(cbs, car, i) && cbs[i].payload == payload
  }

  ghost predicate LinkFits(cbs: seq<Callback>, since: Option<real>) {
    match since
    case None => forall i: nat :: !OpenedBy(cbs, i)
    case Some(at) => exists i: nat :: OpenedBy(cbs, i) && cbs[i].at == at
  }

  /** What the tracker holds about a car; a car never heard of has nothing. */
  function CarOf(t: Tracker, car: string): Car {
    if car in t.cars then t.cars[car] else Car(None, None, None)
  }

  lemma LinkFitsStep(cbs: seq<Callback>, cb: Callback, since: Option<real>, since': Option<real>)
    requires LinkFits(cbs, since)
    requires since' == if cb.Connected? then Some(cb.at) else if cb.Disconnected? then None else since
    ensures LinkFits(cbs + [cb], since')
  {
    var longer := cbs + [cb];
    assert forall j | 0 <= j < |cbs| :: longer[j] == cbs[j];
    if IsLink(cb) {
      assert cb.Connected? ==> OpenedBy(longer, |cbs|);
      assert IsLink(longer[|cbs|]);
      assert forall i: nat | i < |cbs| :: !OpenedBy(longer, i);
    } else if since.Some? {
      var i: nat :| OpenedBy(cbs, i) && cbs[i].at == since.value;
      assert OpenedBy(longer, i);
    } else {
      forall i: nat | OpenedBy(longer, i)
        ensures OpenedBy(cbs, i)
      {
      }
    }
  }

  lemma HeardFitsStep(cbs: seq<Callback>, cb: Callback, car: string, c: Car, c': Car)
    requires HeardFits(cbs, car, c)
    requires if IsBeat(cb, car) then c'.heardAt == Some(cb.at) && c'.healthy == ParseBool(cb.payload)
             else c'.heardAt == c.heardAt && c'.healthy == c.healthy
    ensures HeardFits(cbs + [cb], car, c')
  {
    var longer := cbs + [cb];
    if IsBeat(cb, car) {
      assert LastBeat(longer, car, |cbs|);
    } else if c.heardAt.Some? {
      var i: nat :| LastBeat(cbs, car, i) && cbs[i].at == c.heardAt.value && Says(cbs[i].payload, c.healthy);
      assert LastBeat(longer, car, i);
    }
  }

  lemma StateFitsStep(cbs: seq<Callback>, cb: Callback, car: string, c: Car, c': Car)
    requires StateFits(cbs, car, c)
    requires c'.state == if IsStateReport(cb, car) then Some(cb.payload) else c.state
    ensures StateFits(cbs + [cb], car, c')
  {
    var longer := cbs + [cb];
    if IsStateReport(cb, car) {
      assert LastStateReport(longer, car, |cbs|);
    } else if c.state.Some? {
      var i: nat :| LastStateReport(cbs, car, i) && cbs[i].payload == c.state.value;
      assert LastStateReport(longer, car, i);
    }
  }

  /** What the tracker holds about a car, and about the connection, is a fact about the callback history. */
  lemma {:induction false} TrackerFollowsTheCallbacks(cbs: seq<Callback>, car: string)
    ensures var t := Observed(cbs);
            && HeardFits(cbs, car, CarOf(t, car))
            && StateFits(cbs, car, CarOf(t, car))
            && LinkFits(cbs, t.connectedSince)
            && (car in t.cars <==> exists cb :: cb in cbs && IsFrom(cb, car))
  {
    if cbs != [] {
      var front, cb := Front(cbs), Last(cbs);
      TrackerFollowsTheCallbacks(front, car);
      var t, t' := Observed(front), Observed(cbs);
      assert cbs == front + [cb];
      HeardFitsStep(front, cb, car, CarOf(t, car), CarOf(t', car));
      StateFitsStep(front, cb, car, CarOf(t, car), CarOf(t', car));
      LinkFitsStep(front, cb, t.connectedSince, t'.connectedSince);
      assert car in t'.cars <==> car in t.cars || IsFrom(cb, car);
    }
  }

  /** The state last reported for a car. */
  ghost predicate ReportedState(cbs: seq<Callback>, car: string, state: Option<string>) {
    StateFits(cbs, car, Car(None, None, state))
  }

  /** Staleness without the tracker: heard before, connected, and both too long ago. */
  ghost predicate SilentTooLong(cfg: Config, cbs: seq<Callback>, car: string, now: real) {
    exists beat: nat, link: nat, state: Option<string> :: SilentSince(cfg, cbs, car, now, beat, link, state)
  }

  /** As shown by callbacks `beat` and `link`. */
  ghost predicate SilentSince(cfg: Config, cbs: seq<Callback>, car: string, now: real, beat: nat, link: nat, state: Option<string>) {
    && LastBeat(cbs, car, beat)
    && OpenedBy(cbs, link)
    && ReportedState(cbs, car, state)
    && var limit := if state == Some("driving") || state == Some("charging") then cfg.staleSeconds else cfg.parkedStaleSeconds;
       now - cbs[beat].at > limit as real && now - cbs[link].at > limit as real
  }

  lemma HeardIs(cbs: seq<Callback>, car: string, c: Car, beat: nat)
    requires HeardFits(cbs, car, c) && LastBeat(cbs, car, beat)
    ensures c.heardAt == Some(cbs[beat].at)
  {
    if c.heardAt.Some? {
      var i: nat :| LastBeat(cbs, car, i) && cbs[i].at == c.heardAt.value;
      assert i == beat;
    }
  }

  lemma LinkIs(cbs: seq<Callback>, since: Option<real>, link: nat)
    requires LinkFits(cbs, since) && OpenedBy(cbs, link)
    ensures since == Some(cbs[link].at)
  {
    if since.Some? {
      var i: nat :| OpenedBy(cbs, i) && cbs[i].at == since.value;
      assert i == link;
    }
  }

  lemma ReportedStateIsUnique(cbs: seq<Callback>, car: string, s: Option<string>, t: Option<string>)
    requires ReportedState(cbs, car, s) && ReportedState(cbs, car, t)
    ensures s == t
  {
  }

  lemma HeldStateIsReported(cbs: seq<Callback>, car: string)
    ensures ReportedState(cbs, car, CarOf(Observed(cbs), car).state)
  {
    TrackerFollowsTheCallbacks(cbs, car);
  }

  lemma StaleMeansSilent(cfg: Config, cbs: seq<Callback>, car: string, now: real)
    requires var t := Observed(cbs); Stale(cfg, CarOf(t, car), t.connectedSince, now)
    ensures SilentTooLong(cfg, cbs, car, now)
  {
    TrackerFollowsTheCallbacks(cbs, car);
    var t := Observed(cbs);
    var c := CarOf(t, car);
    var beat: nat :| LastBeat(cbs, car, beat) && cbs[beat].at == c.heardAt.value;
    var link: nat :| OpenedBy(cbs, link) && cbs[link].at == t.connectedSince.value;
    HeldStateIsReported(cbs, car);
    assert SilentSince(cfg, cbs, car, now, beat, link, c.state);
  }

  lemma SilentMeansStale(cfg: Config, cbs: seq<Callback>, car: string, now: real)
    requires cfg.stalenessDetection && SilentTooLong(cfg, cbs, car, now)
    ensures var t := Observed(cbs); Stale(cfg, CarOf(t, car), t.connectedSince, now)
  {
    TrackerFollowsTheCallbacks(cbs, car);
    HeldStateIsReported(cbs, car);
    var t := Observed(cbs);
    var beat: nat, link: nat, state: Option<string> :| SilentSince(cfg, cbs, car, now, beat, link, state);
    HeardIs(cbs, car, CarOf(t, car), beat);
    LinkIs(cbs, t.connectedSince, link);
    ReportedStateIsUnique(cbs, car, state, CarOf(t, car).state);
  }

  /** With callbacks taken one at a time, the staleness verdict is exact, for every history, car and time. */
  lemma StalenessIsExact(cfg: Config, cbs: seq<Callback>, car: string, now: real)
    ensures var t := Observed(cbs);
            Stale(cfg, CarOf(t, car), t.connectedSince, now) <==>
            cfg.stalenessDetection && SilentTooLong(cfg, cbs, car, now)
  {
    var t := Observed(cbs);
    if Stale(cfg, CarOf(t, car), t.connectedSince, now) {
      StaleMeansSilent(cfg, cbs, car, now);
    }
    if cfg.stalenessDetection && SilentTooLong(cfg, cbs, car, now) {
      SilentMeansStale(cfg, cbs, car, now);
    }
  }

  // ---- The order of the cars --------------------------------------------------------------------

  ghost predicate FirstMessage(cbs: seq<Callback>, car: string, i: nat) {
    i < |cbs| && IsFrom(cbs[i], car) && forall j | 0 <= j < i :: !IsFrom(cbs[j], car)
  }

  ghost predicate Increasing(at: seq<nat>) {
    forall a, b | 0 <= a < b < |at| :: at[a] < at[b]
  }

  /** Car by car, the callbacks at positions `at` are the first messages. */
  ghost predicate FirstMessages(cbs: seq<Callback>, order: seq<string>, at: seq<nat>) {
    |at| == |order| && forall a | 0 <= a < |order| :: FirstMessage(cbs, order[a], at[a])
  }

  lemma FirstMessagesStay(cbs: seq<Callback>, cb: Callback, order: seq<string>, at: seq<nat>)
    requires FirstMessages(cbs, order, at)
    ensures FirstMessages(cbs + [cb], order, at)
  {
    forall a | 0 <= a < |order|
      ensures FirstMessage(cbs + [cb], order[a], at[a])
    {
      assert FirstMessage(cbs, order[a], at[a]);
    }
  }

  lemma NewCar(cbs: seq<Callback>, cb: Callback)
    requires cb.Message? && cb.car !in Observed(cbs).cars
    ensures FirstMessage(cbs + [cb], cb.car, |cbs|)
  {
    TrackerFollowsTheCallbacks(cbs, cb.car);
    assert forall j | 0 <= j < |cbs| :: cbs[j] in cbs;
  }

  lemma TrackerInvStep(t: Tracker, cb: Callback)
    requires TrackerInv(t)
    ensures TrackerInv(Apply(t, cb))
  {
  }

  /** The cars are listed once each, in the order of their first messages. */
  lemma {:induction false} CarsAreListedByFirstMessage(cbs: seq<Callback>) returns (at: seq<nat>)
    ensures TrackerInv(Observed(cbs))
    ensures FirstMessages(cbs, Observed(cbs).order, at) && Increasing(at)
  {
    at := [];
    if cbs != [] {
      var front, cb := Front(cbs), Last(cbs);
      at := CarsAreListedByFirstMessage(front);
      assert cbs == front + [cb];
      TrackerInvStep(Observed(front), cb);
      FirstMessagesStay(front, cb, Observed(front).order, at);
      if cb.Message? && cb.car !in Observed(front).cars {
        NewCar(front, cb);
        assert forall a | 0 <= a < |at| :: FirstMessage(front, Observed(front).order[a], at[a]);
        at := at + [|front|];
      }
    }
  }

  // ---- Reading while the MQTT thread writes ----------------------------------------------------

  /**
   The reader takes `now`, then reads the heartbeat, the connection, the heartbeat again and the
   car state without a lock. Position `p.x` is how many callbacks had been written at that read,
   `p.entered` how many had been entered when the reader took `now`: the one callback thread may
   by then have entered a callback, and taken its stamp, that it writes later.
   */
  datatype Reads = Reads(entered: nat, clock: nat, heard: nat, connection: nat, heartbeat: nat, state: nat)

  ghost predicate InOrder(p: Reads, cbs: seq<Callback>) {
    && p.clock <= p.heard <= p.connection <= p.heartbeat <= p.state <= |cbs|
    && p.clock <= p.entered <= p.clock + 1 && p.entered <= |cbs|
  }

  /** The verdict put together from the separate reads. */
  ghost predicate RacyStale(cfg: Config, cbs: seq<Callback>, p: Reads, car: string, now: real)
    requires InOrder(p, cbs)
  {
    var heard := CarOf(Observed(cbs[..p.heard]), car).heardAt;
    var connectedSince := Observed(cbs[..p.connection]).connectedSince;
    var heartbeat := CarOf(Observed(cbs[..p.heartbeat]), car).heardAt;
    var state := CarOf(Observed(cbs[..p.state]), car).state;
    heard.Some? && heartbeat.Some? && Stale(cfg, Car(None, heartbeat, state), connectedSince, now)
  }

  predicate Stamped(cb: Callback) {
    cb.Connected? || cb.Message?
  }

  /** Stamps come from one monotonic clock, the one that gave `now`. */
  ghost predicate StampsFit(cbs: seq<Callback>, p: Reads, now: real) {
    && (forall i, j | 0 <= i < j < |cbs| && Stamped(cbs[i]) && Stamped(cbs[j]) :: cbs[i].at <= cbs[j].at)
    && (forall i | p.entered <= i < |cbs| && Stamped(cbs[i]) :: now <= cbs[i].at)
  }

  /** The callback that opened the connection a reader saw after `n` callbacks. */
  lemma ConnectionRead(cbs: seq<Callback>, n: nat) returns (link: nat)
    requires n <= |cbs| && Observed(cbs[..n]).connectedSince.Some?
    ensures link < n && cbs[link].Connected? && Observed(cbs[..n]).connectedSince == Some(cbs[link].at)
    ensures forall j | link < j < n :: !IsLink(cbs[j])
  {
    var seen := cbs[..n];
    TrackerFollowsTheCallbacks(seen, "");
    link :| OpenedBy(seen, link) && seen[link].at == Observed(seen).connectedSince.value;
    assert forall j | link < j < n :: seen[j] == cbs[j];
  }

  /** The heartbeat a reader saw after `n` callbacks, and no later one among them. */
  lemma HeartbeatRead(cbs: seq<Callback>, n: nat, car: string) returns (beat: nat)
    requires n <= |cbs| && CarOf(Observed(cbs[..n]), car).heardAt.Some?
    ensures beat < n && IsBeat(cbs[beat], car) && CarOf(Observed(cbs[..n]), car).heardAt == Some(cbs[beat].at)
    ensures forall j | beat < j < n :: !IsBeat(cbs[j], car)
  {
    var seen := cbs[..n];
    TrackerFollowsTheCallbacks(seen, car);
    beat :| LastBeat(seen, car, beat) && seen[beat].at == CarOf(Observed(seen), car).heardAt.value;
    assert forall j | beat < j < n :: seen[j] == cbs[j];
  }

  /** The tracker changes only by the callbacks that concern a field. */
  lemma {:induction false} UntouchedFields(cbs: seq<Callback>, m: nat, n: nat, car: string)
    requires m <= n <= |cbs|
    ensures var s, t := Observed(cbs[..m]), Observed(cbs[..n]);
            && ((forall i | m <= i < n :: !IsBeat(cbs[i], car)) ==>
                  CarOf(s, car).heardAt == CarOf(t, car).heardAt && CarOf(s, car).healthy == CarOf(t, car).healthy)
            && ((forall i | m <= i < n :: !IsStateReport(cbs[i], car)) ==> CarOf(s, car).state == CarOf(t, car).state)
            && ((forall i | m <= i < n :: !IsLink(cbs[i])) ==> s.connectedSince == t.connectedSince)
  {
    if m < n {
      UntouchedFields(cbs, m, n - 1, car);
      assert Front(cbs[..n]) == cbs[..n - 1];
    }
  }

  /** The callback in flight at `now` was written only after the read at position `read`. */
  predicate Unread(p: Reads, read: nat) {
    p.entered == p.clock + 1 && read == p.clock
  }

  /** What the tracker would hold if every callback entered by `now` had been written by then. */
  function AtNow(cbs: seq<Callback>, p: Reads): Tracker
    requires p.entered <= |cbs|
  {
    Observed(cbs[..p.entered])
  }

  function LimitAtNow(cfg: Config, cbs: seq<Callback>, p: Reads, car: string): real
    requires p.entered <= |cbs|
  {
    Limit(cfg, CarOf(AtNow(cbs, p), car).state)
  }

  /** A fresh enough heartbeat was in flight. */
  ghost predicate MissedHeartbeat(cfg: Config, cbs: seq<Callback>, p: Reads, car: string, now: real)
    requires InOrder(p, cbs)
  {
    Unread(p, p.heartbeat) && IsBeat(cbs[p.clock], car) && now - cbs[p.clock].at <= LimitAtNow(cfg, cbs, p, car)
  }

  /** A disconnect, or a fresh enough connect, was in flight. */
  ghost predicate MissedLink(cfg: Config, cbs: seq<Callback>, p: Reads, car: string, now: real)
    requires InOrder(p, cbs)
  {
    && Unread(p, p.connection)
    && (cbs[p.clock].Disconnected?
        || (cbs[p.clock].Connected? && now - cbs[p.clock].at <= LimitAtNow(cfg, cbs, p, car)))
  }

  /** The times read are not too long ago for the state the car had reported by `now`. */
  ghost predicate OtherLimit(cfg: Config, cbs: seq<Callback>, p: Reads, car: string, now: real)
    requires InOrder(p, cbs)
  {
    var heartbeat := CarOf(Observed(cbs[..p.heartbeat]), car).heardAt;
    var connectedSince := Observed(cbs[..p.connection]).connectedSince;
    !Stale(cfg, Car(None, heartbeat, CarOf(AtNow(cbs, p), car).state), connectedSince, now)
  }

  /** Wherever that happens, a state report was in flight, or was entered between `now` and the read of the state. */
  lemma OtherLimitNeedsAReport(cfg: Config, cbs: seq<Callback>, p: Reads, car: string, now: real)
    requires InOrder(p, cbs) && RacyStale(cfg, cbs, p, car, now) && OtherLimit(cfg, cbs, p, car, now)
    ensures (Unread(p, p.state) && IsStateReport(cbs[p.clock], car))
            || exists i :: p.entered <= i < p.state && IsStateReport(cbs[i], car)
  {
    if p.state >= p.entered {
      UntouchedFields(cbs, p.entered, p.state, car);
    } else {
      UntouchedFields(cbs, p.state, p.entered, car);
    }
  }

  lemma HeartbeatIsReadUnlessInFlight(cbs: seq<Callback>, p: Reads, car: string, now: real)
    requires InOrder(p, cbs) && StampsFit(cbs, p, now)
    requires var heartbeat := CarOf(Observed(cbs[..p.heartbeat]), car).heardAt; heartbeat.Some? && heartbeat.value < now
    ensures CarOf(AtNow(cbs, p), car).heardAt
         == if Unread(p, p.heartbeat) && IsBeat(cbs[p.clock], car) then Some(cbs[p.clock].at)
            else CarOf(Observed(cbs[..p.heartbeat]), car).heardAt
  {
    if p.heartbeat < p.entered {
      assert Front(cbs[..p.entered]) == cbs[..p.heartbeat];
    } else {
      var beat := HeartbeatRead(cbs, p.heartbeat, car);
      UntouchedFields(cbs, p.entered, p.heartbeat, car);
    }
  }

  lemma LinkIsReadUnlessInFlight(cbs: seq<Callback>, p: Reads, now: real)
    requires InOrder(p, cbs) && StampsFit(cbs, p, now)
    requires var since := Observed(cbs[..p.connection]).connectedSince; since.Some? && since.value < now
    ensures AtNow(cbs, p).connectedSince
         == if Unread(p, p.connection) && cbs[p.clock].Disconnected? then None
            else if Unread(p, p.connection) && cbs[p.clock].Connected? then Some(cbs[p.clock].at)
            else Observed(cbs[..p.connection]).connectedSince
  {
    if p.connection < p.entered {
      assert Front(cbs[..p.entered]) == cbs[..p.connection];
    } else {
      var link := ConnectionRead(cbs, p.connection);
      UntouchedFields(cbs, p.entered, p.connection, "");
    }
  }

  /**
   A stale verdict put together from racing reads is true of the moment `now` (connected without
   interruption and silent for longer than the limit of the state reported by then) unless the one
   callback in flight was a fresh heartbeat or a link change that the reads missed, or the state read
   was not the state at `now`; and in each of these cases it is false.
   */
  lemma RacyVerdictIsSound(cfg: Config, cbs: seq<Callback>, p: Reads, car: string, now: real)
    requires InOrder(p, cbs) && StampsFit(cbs, p, now)
    requires RacyStale(cfg, cbs, p, car, now)
    ensures SilentTooLong(cfg, cbs[..p.entered], car, now) <==>
            && !MissedHeartbeat(cfg, cbs, p, car, now)
            && !MissedLink(cfg, cbs, p, car, now)
            && !OtherLimit(cfg, cbs, p, car, now)
  {
    HeartbeatIsReadUnlessInFlight(cbs, p, car, now);
    LinkIsReadUnlessInFlight(cbs, p, now);
    StalenessIsExact(cfg, cbs[..p.entered], car, now);
    if Unread(p, p.heartbeat) && IsBeat(cbs[p.clock], car) {
      var beat := HeartbeatRead(cbs, p.heartbeat, car);
    }
    if Unread(p, p.connection) && cbs[p.clock].Connected? {
      var link := ConnectionRead(cbs, p.connection);
    }
  }

  // ---- Each exception happens --------------------------------------------------------------------

  /** Connected and heard at time 0, then `cb`. */
  function HeardOnceThen(car: string, state: string, cb: Callback): seq<Callback> {
    [Connected(0.0), Message(car, StateTopic, state, 0.0), Message(car, HealthyTopic, "true", 0.0), cb]
  }

  /** All reads see three callbacks; the fourth is in flight. */
  const FOURTH_IN_FLIGHT: Reads := Reads(4, 3, 3, 3, 3, 3)

  lemma ObservedOnce(car: string, state: string, cb: Callback)
    ensures var cbs := HeardOnceThen(car, state, cb);
            && Observed(cbs[..3]) == Tracker(map[car := Car(Some(true), Some(0.0), Some(state))], [car], Some(0.0))
            && Observed(cbs[..4]) == Apply(Observed(cbs[..3]), cb)
  {
    var cbs := HeardOnceThen(car, state, cb);
    assert Front(cbs[..4]) == cbs[..3] && Front(cbs[..3]) == cbs[..2] && Front(cbs[..2]) == cbs[..1] && Front(cbs[..1]) == [];
    assert Observed(cbs[..1]) == Tracker(map[], [], Some(0.0));
    assert Observed(cbs[..2]) == Tracker(map[car := Car(None, None, Some(state))], [car], Some(0.0));
  }

  /** A heartbeat stamped one second before `now` is missed while in flight. */
  lemma InFlightHeartbeatIsMissed(cfg: Config, car: string)
    requires cfg.Valid() && cfg.stalenessDetection
    ensures var now := cfg.parkedStaleSeconds as real + 2.0;
            var cbs := HeardOnceThen(car, "asleep", Message(car, HealthyTopic, "true", now - 1.0));
            && InOrder(FOURTH_IN_FLIGHT, cbs) && StampsFit(cbs, FOURTH_IN_FLIGHT, now)
            && RacyStale(cfg, cbs, FOURTH_IN_FLIGHT, car, now) && MissedHeartbeat(cfg, cbs, FOURTH_IN_FLIGHT, car, now)
  {
    ObservedOnce(car, "asleep", Message(car, HealthyTopic, "true", cfg.parkedStaleSeconds as real + 1.0));
  }

  /** So is a disconnect entered before `now`, and a reconnect one second before it. */
  lemma InFlightLinkChangeIsMissed(cfg: Config, car: string, link: Callback)
    requires cfg.Valid() && cfg.stalenessDetection
    requires link == Disconnected || link == Connected(cfg.parkedStaleSeconds as real + 1.0)
    ensures var now := cfg.parkedStaleSeconds as real + 2.0;
            var cbs := HeardOnceThen(car, "asleep", link);
            && InOrder(FOURTH_IN_FLIGHT, cbs) && StampsFit(cbs, FOURTH_IN_FLIGHT, now)
            && RacyStale(cfg, cbs, FOURTH_IN_FLIGHT, car, now) && MissedLink(cfg, cbs, FOURTH_IN_FLIGHT, car, now)
  {
    ObservedOnce(car, "asleep", link);
  }

  /** A car that has just reported that it fell asleep is judged by the limit for driving while the report is in flight. */
  lemma InFlightStateReportIsMissed(cfg: Config, car: string)
    requires cfg.Valid() && cfg.stalenessDetection && cfg.parkedStaleSeconds >= cfg.staleSeconds + 2
    ensures var now := cfg.staleSeconds as real + 2.0;
            var cbs := HeardOnceThen(car, "driving", Message(car, StateTopic, "asleep", now - 1.0));
            && InOrder(FOURTH_IN_FLIGHT, cbs) && StampsFit(cbs, FOURTH_IN_FLIGHT, now)
            && RacyStale(cfg, cbs, FOURTH_IN_FLIGHT, car, now) && OtherLimit(cfg, cbs, FOURTH_IN_FLIGHT, car, now)
  {
    ObservedOnce(car, "driving", Message(car, StateTopic, "asleep", cfg.staleSeconds as real + 1.0));
  }

  /** A car that sets off between `now` and the read of its state is judged by the limit for driving too early. */
  lemma LateStateReportIsRead(cfg: Config, car: string)
    requires cfg.Valid() && cfg.stalenessDetection && cfg.parkedStaleSeconds >= cfg.staleSeconds + 2
    ensures var now := cfg.staleSeconds as real + 2.0;
            var cbs := HeardOnceThen(car, "asleep", Message(car, StateTopic, "driving", now));
            var p := Reads(3, 3, 3, 3, 3, 4);
            && InOrder(p, cbs) && StampsFit(cbs, p, now)
            && RacyStale(cfg, cbs, p, car, now) && OtherLimit(cfg, cbs, p, car, now)
  {
    ObservedOnce(car, "asleep", Message(car, StateTopic, "driving", cfg.staleSeconds as real + 2.0));
  }

  // ---- Which car is judged -------------------------------------------------------------------------

  /** The health of a car as read after `n` callbacks. */
  function HealthAt(cbs: seq<Callback>, n: nat, car: string): Option<bool>
    requires n <= |cbs|
  {
    CarOf(Observed(cbs[..n]), car).healthy
  }

  /** Callback `i` is the last heartbeat of the car written between two reads. */
  ghost predicate LatestBetween(cbs: seq<Callback>, m: nat, n: nat, car: string, i: nat)
    requires n <= |cbs|
  {
    m <= i < n && IsBeat(cbs[i], car) && forall j | i < j < n :: !IsBeat(cbs[j], car)
  }

  /** Two reads of a car's health differ only by the heartbeats written between them. */
  lemma HealthBetweenReads(cbs: seq<Callback>, m: nat, n: nat, car: string)
    requires m <= n <= |cbs|
    ensures (forall i: nat :: !LatestBetween(cbs, m, n, car, i)) ==> HealthAt(cbs, n, car) == HealthAt(cbs, m, car)
    ensures forall i: nat | LatestBetween(cbs, m, n, car, i) :: Says(cbs[i].payload, HealthAt(cbs, n, car))
  {
    forall i: nat | LatestBetween(cbs, m, n, car, i)
      ensures Says(cbs[i].payload, HealthAt(cbs, n, car))
    {
      var seen := cbs[..n];
      TrackerFollowsTheCallbacks(seen, car);
      assert LastBeat(seen, car, i);
    }
    if i: nat :| m <= i < n && IsBeat(cbs[i], car) {
      SomeBeatIsLatest(cbs, m, n, car, i);
    } else {
      UntouchedFields(cbs, m, n, car);
    }
  }

  lemma {:induction false} SomeBeatIsLatest(cbs: seq<Callback>, m: nat, n: nat, car: string, i: nat)
    requires m <= i < n <= |cbs| && IsBeat(cbs[i], car)
    ensures exists l: nat :: LatestBetween(cbs, m, n, car, l)
    decreases n - i
  {
    if j: nat :| i < j < n && IsBeat(cbs[j], car) {
      SomeBeatIsLatest(cbs, m, n, car, j);
    } else {
      assert LatestBetween(cbs, m, n, car, i);
    }
  }

  /** Without a known primary car, the reads at positions `at` choose car `k`: the first one found unhealthy. */
  ghost predicate ChosenAsUnhealthy(cbs: seq<Callback>, order: seq<string>, at: seq<nat>, k: nat) {
    && |at| == |order| && k < |order|
    && (forall j | 0 <= j <= k :: at[j] <= |cbs|)
    && HealthAt(cbs, at[k], order[k]) == Some(false)
    && forall j: nat | j < k :: HealthAt(cbs, at[j], order[j]) != Some(false)
  }

  /**
   The health of the chosen car is read once more for the answer. A car chosen as unhealthy is reported
   as unhealthy exactly when no heartbeat written in between says otherwise.
   */
  lemma ChosenCarIsReported(cbs: seq<Callback>, order: seq<string>, at: seq<nat>, k: nat, again: nat)
    requires ChosenAsUnhealthy(cbs, order, at, k) && at[k] <= again <= |cbs|
    ensures HealthAt(cbs, again, order[k]) == Some(false) <==>
            forall i: nat | LatestBetween(cbs, at[k], again, order[k], i) :: cbs[i].payload in {"false", "0", "off", "offline"}
  {
    HealthBetweenReads(cbs, at[k], again, order[k]);
  }

  /** Otherwise a healthy verdict comes out although another known car is unhealthy all along. */
  lemma UnhealthyCarIsPassedOver(a: string, b: string)
    requires a != b
    ensures var cbs := [Message(a, HealthyTopic, "false", 0.0), Message(b, HealthyTopic, "false", 0.0),
                        Message(a, HealthyTopic, "true", 1.0)];
            && Observed(cbs[..2]).order == [a, b]
            && ChosenAsUnhealthy(cbs, [a, b], [2, 2], 0)
            && HealthAt(cbs, 3, a) == Some(true)
            && HealthAt(cbs, 2, b) == HealthAt(cbs, 3, b) == Some(false)
  {
    var x, y, z := Message(a, HealthyTopic, "false", 0.0), Message(b, HealthyTopic, "false", 0.0), Message(a, HealthyTopic, "true", 1.0);
    var cbs := [x, y, z];
    assert cbs[..3] == [x, y, z] && cbs[..2] == [x, y];
    assert Front([x, y, z]) == [x, y] && Front([x, y]) == [x] && Front([x]) == [];
    assert Observed([x]) == Tracker(map[a := Car(Some(false), Some(0.0), None)], [a], None);
    assert Observed([x, y]).order == [a, b];
  }
}
