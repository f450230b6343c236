/** Layered network diagnostics (core/connectivity.py): the gated probes, the failure domain, the diagnostic chain
    and the persisted observer. */
module Connectivity {
  import opened Prelude

  /** True, False, or None for a probe that was not made or gave no answer. */
  type Tri = Option<bool>

  const YES: Tri := Some(true)
  const NO: Tri := Some(false)

  datatype LinkState = Established | Connecting | Broken | OtherLink

  datatype Checks = Checks(interface: Tri, gateway: Tri, dns: Tri, internet: Tri, services: Tri,
                           asterisk: Tri, registration: Tri, iax: Tri, links: Option<seq<LinkState>>)

  /** What each probe would answer if it were made. `links` are the rows of the link table. */
  datatype Probes = Probes(interface: Tri, gateway: Tri, dns: Tri, internet: bool, service: bool,
                           asterisk: Tri, registration: Tri, iax: Tri, links: Option<seq<LinkState>>)

  /** Rows in any other state are skipped. */
  function ReadableLinks(rows: seq<LinkState>): (links: seq<LinkState>)
    ensures forall l :: l in links ==> l in {Established, Connecting}
  {
    if rows == [] then []
    else (if rows[0] in {Established, Connecting} then [rows[0]] else []) + ReadableLinks(rows[1..])
  }

  /** `run_checks`: a probe is made only when what it depends on answered. */
  function RunChecks(p: Probes): Checks {
    var gateway := if p.interface == YES then p.gateway else None;
    var dns := if gateway == YES then p.dns else None;
    var internet := if gateway == YES then Some(p.internet) else None;
    var services := if dns == YES && internet == YES then Some(p.service) else None;
    var registration := if p.asterisk == YES then p.registration else None;
    var iax := if p.asterisk == YES then p.iax else None;
    var links :=
      if p.asterisk == YES && iax == YES && p.links.Some? then Some(ReadableLinks(p.links.value)) else None;
    Checks(p.interface, gateway, dns, internet, services, p.asterisk, registration, iax, links)
  }

  datatype Domain =
    | Healthy | Unavailable
    | LocalNetwork | Gateway | ExternalInternet | Dns | AllstarServices | AsteriskService | Registration | Iax | RemoteLink

  predicate Troubled(c: Checks) {
    c.links.Some? && exists l :: l in c.links.value && l in {Connecting, Broken}
  }

  function FailureDomain(c: Checks): Domain {
    if c.interface == NO then LocalNetwork
    else if c.gateway == NO then Gateway
    else if c.internet == NO then ExternalInternet
    else if c.dns == NO then Dns
    else if c.services == NO then AllstarServices
    else if c.asterisk == NO then AsteriskService
    else if c.registration == NO then Registration
    else if c.iax == NO then Iax
    else if Troubled(c) then RemoteLink
    else if c.interface.None? || c.gateway.None? || c.dns.None? || c.internet.None? then Unavailable
    else if c.services.None? || c.registration.None? || c.asterisk.None? || c.iax.None? then Unavailable
    else Healthy
  }

  datatype LayerName =
    | LocalNetworkLayer | GatewayLayer | DnsLayer | InternetLayer | ServicesLayer
    | AsteriskLayer | RegistrationLayer | IaxLayer | LinksLayer

  datatype LayerStatus = Working | Failing | Undetermined | Blocked

  function FromCheck(t: Tri): LayerStatus {
    match t
    case None => Undetermined
    case Some(ok) => if ok then Working else Failing
  }

  function ServicesStatus(c: Checks): LayerStatus {
    if c.interface == YES && c.gateway == YES && c.internet == YES && c.dns == YES then FromCheck(c.services)
    else Blocked
  }

  function IaxStatus(c: Checks): LayerStatus {
    if c.asterisk == YES then FromCheck(c.iax) else Blocked
  }

  function LayerStatusOf(c: Checks, name: LayerName): LayerStatus {
    var reachable := c.interface == YES && c.gateway == YES;
    match name
    case LocalNetworkLayer => FromCheck(c.interface)
    case GatewayLayer => if c.interface == YES then FromCheck(c.gateway) else Blocked
    case DnsLayer => if reachable then FromCheck(c.dns) else Blocked
    case InternetLayer => if reachable then FromCheck(c.internet) else Blocked
    case ServicesLayer => ServicesStatus(c)
    case AsteriskLayer => FromCheck(c.asterisk)
    case RegistrationLayer =>
      if c.asterisk != YES then Blocked
      else if c.registration == YES then Working
      else if ServicesStatus(c) != Working then Blocked
      else FromCheck(c.registration)
    case IaxLayer => IaxStatus(c)
    case LinksLayer =>
      if IaxStatus(c) != Working then Blocked
      else if c.links.None? then Undetermined
      else if exists l :: l in c.links.value && l != Established then Failing
      else Working
  }

  /** `diagnostic_layers`, which fills the chain from the bottom up. */
  method DiagnosticLayers(c: Checks) returns (layers: map<LayerName, LayerStatus>)
    ensures forall name :: name in layers && layers[name] == LayerStatusOf(c, name)
  {
    layers := map[LocalNetworkLayer := FromCheck(c.interface)];
    if c.interface != YES {
      layers := layers[GatewayLayer := Blocked];
    } else {
      layers := layers[GatewayLayer := FromCheck(c.gateway)];
    }
    var upstream := c.interface == YES && c.gateway == YES;
    layers := layers[DnsLayer := if upstream then FromCheck(c.dns) else Blocked];
    layers := layers[InternetLayer := if upstream then FromCheck(c.internet) else Blocked];
    if !upstream || c.internet != YES {
      layers := layers[ServicesLayer := Blocked];
    } else if c.dns != YES {
      layers := layers[ServicesLayer := Blocked];
    } else {
      layers := layers[ServicesLayer := FromCheck(c.services)];
    }
    layers := layers[AsteriskLayer := FromCheck(c.asterisk)];
    var serviceOk := layers[ServicesLayer] == Working;
    if c.asterisk != YES {
      layers := layers[RegistrationLayer := Blocked];
    } else if c.registration == YES {
      layers := layers[RegistrationLayer := Working];
    } else if !serviceOk {
      layers := layers[RegistrationLayer := Blocked];
    } else {
      layers := layers[RegistrationLayer := FromCheck(c.registration)];
    }
    if c.asterisk != YES {
      layers := layers[IaxLayer := Blocked];
    } else {
      layers := layers[IaxLayer := FromCheck(c.iax)];
    }
    if layers[IaxLayer] != Working {
      layers := layers[LinksLayer := Blocked];
    } else if c.links.None? {
      layers := layers[LinksLayer := Undetermined];
    } else {
      var troubled := exists l :: l in c.links.value && l != Established;
      layers := layers[LinksLayer := if troubled then Failing else Working];
    }
    forall name: LayerName ensures name in layers && layers[name] == LayerStatusOf(c, name) {
      match name
      case LocalNetworkLayer =>
      case GatewayLayer =>
      case DnsLayer =>
      case InternetLayer =>
      case ServicesLayer =>
      case AsteriskLayer =>
      case RegistrationLayer =>
      case IaxLayer =>
      case LinksLayer =>
    }
  }

  function LayerOf(d: Domain): LayerName
    requires d != Healthy && d != Unavailable
  {
    match d
    case LocalNetwork => LocalNetworkLayer
    case Gateway => GatewayLayer
    case ExternalInternet => InternetLayer
    case Dns => DnsLayer
    case AllstarServices => ServicesLayer
    case AsteriskService => AsteriskLayer
    case Registration => RegistrationLayer
    case Iax => IaxLayer
    case RemoteLink => LinksLayer
  }

  /** For gated checks, the layer of the reported failure domain fails. The registration layer is the exception:
      it fails exactly when the service probe was made, and otherwise is blocked. */
  lemma FailureIsInItsLayer(p: Probes)
    ensures var c := RunChecks(p);
            var d := FailureDomain(c);
            d != Healthy && d != Unavailable ==>
              LayerStatusOf(c, LayerOf(d)) == if d == Registration && c.services.None? then Blocked else Failing
  {
  }

  predicate LayerFine(c: Checks, name: LayerName) {
    LayerStatusOf(c, name) == Working || (name == LinksLayer && LayerStatusOf(c, name) == Undetermined)
  }

  /** For gated checks, the domain is healthy exactly when every layer works, except that the links may be
      undetermined. */
  lemma HealthyIffLayersWork(p: Probes)
    ensures var c := RunChecks(p);
            FailureDomain(c) == Healthy <==> forall name :: LayerFine(c, name)
  {
    var c := RunChecks(p);
    var allFine := forall name :: LayerFine(c, name);
    if allFine {
      assert LayerFine(c, LocalNetworkLayer) && LayerFine(c, GatewayLayer) && LayerFine(c, DnsLayer);
      assert LayerFine(c, InternetLayer) && LayerFine(c, ServicesLayer) && LayerFine(c, AsteriskLayer);
      assert LayerFine(c, RegistrationLayer) && LayerFine(c, IaxLayer) && LayerFine(c, LinksLayer);
    }
    if FailureDomain(c) == Healthy {
      forall name ensures LayerFine(c, name) {
        match name
        case LinksLayer =>
        case _ =>
      }
    }
  }

  // ---------------------------------------------------------------------------------------------------
  // The domain and the layers, read off the probes.

  /** Rows are kept as they are, and only those of the two readable states. */
  lemma {:induction false} ReadableRows(rows: seq<LinkState>)
    ensures forall l :: l in ReadableLinks(rows) <==> l in rows && (l == Established || l == Connecting)
    ensures |ReadableLinks(rows)| <= |rows|
    ensures multiset(ReadableLinks(rows))[Connecting] == multiset(rows)[Connecting]
    ensures multiset(ReadableLinks(rows))[Established] == multiset(rows)[Established]
  {
    if rows != [] {
      ReadableRows(rows[1..]);
      assert rows == [rows[0]] + rows[1..];
    }
  }

  lemma ThreeAnswers(t: Tri)
    ensures t == None || t == Some(true) || t == Some(false)
  {
    match t
    case None =>
    case Some(ok) => assert t == Some(ok);
  }

  lemma TroubledIff(p: Probes)
    ensures Troubled(RunChecks(p)) <==>
              p.asterisk == Some(true) && p.iax == Some(true) && p.links.Some? && Connecting in p.links.value
  {
    if p.links.Some? {
      ReadableRows(p.links.value);
    }
  }

  /** Some probe up to the AllStar service is made and fails. */
  predicate NetworkFails(p: Probes) {
    || p.interface == NO
    || (p.interface == YES && p.gateway == NO)
    || (p.interface == YES && p.gateway == YES && (!p.internet || p.dns == NO || (p.dns == YES && !p.service)))
  }

  /** Asterisk answers and one of the probes behind it fails. */
  predicate NodeFails(p: Probes) {
    || p.asterisk == NO
    || (p.asterisk == YES && (p.registration == NO || p.iax == NO
                              || (p.iax == YES && p.links.Some? && Connecting in p.links.value)))
  }

  /** Exactly when each failure of the network is reported. An Internet outage is one whatever DNS answers. */
  lemma NetworkDomainIff(p: Probes)
    ensures var d := FailureDomain(RunChecks(p));
            && (d == LocalNetwork <==> p.interface == Some(false))
            && (d == Gateway <==> p.interface == Some(true) && p.gateway == Some(false))
            && (d == ExternalInternet <==> p.interface == Some(true) && p.gateway == Some(true) && !p.internet)
            && (d == Dns <==> p.interface == Some(true) && p.gateway == Some(true) && p.internet && p.dns == Some(false))
            && (d == AllstarServices <==>
                  && p.interface == Some(true) && p.gateway == Some(true) && p.internet && p.dns == Some(true)
                  && !p.service)
  {
    TroubledIff(p);
    hide Troubled, ReadableLinks;
  }

  /** Exactly when each failure of the node is reported: only behind a network in which no probe fails. */
  lemma NodeDomainIff(p: Probes)
    ensures var d := FailureDomain(RunChecks(p));
            && (d == AsteriskService <==> !NetworkFails(p) && p.asterisk == Some(false))
            && (d == Registration <==>
                  !NetworkFails(p) && p.asterisk == Some(true) && p.registration == Some(false))
            && (d == Iax <==>
                  !NetworkFails(p) && p.asterisk == Some(true) && p.registration != Some(false) && p.iax == Some(false))
            && (d == RemoteLink <==>
                  && !NetworkFails(p) && p.asterisk == Some(true) && p.registration != Some(false) && p.iax == Some(true)
                  && p.links.Some? && Connecting in p.links.value)
  {
    TroubledIff(p);
    hide Troubled, ReadableLinks;
  }

  /** Nothing fails: the node is healthy when every probe answers, and unavailable when one gives no answer. The rows of
      links may be missing. */
  lemma NoFailureIff(p: Probes)
    ensures var d := FailureDomain(RunChecks(p));
            var answered :=
              && p.interface.Some? && p.gateway.Some? && p.dns.Some? && p.asterisk.Some? && p.registration.Some?
              && p.iax.Some?;
            && (d == Healthy <==> !NetworkFails(p) && !NodeFails(p) && answered)
            && (d == Unavailable <==> !NetworkFails(p) && !NodeFails(p) && !answered)
  {
    TroubledIff(p);
    ThreeAnswers(p.interface);
    ThreeAnswers(p.gateway);
    ThreeAnswers(p.dns);
    ThreeAnswers(p.asterisk);
    ThreeAnswers(p.registration);
    ThreeAnswers(p.iax);
    hide Troubled, ReadableLinks;
  }

  /** What a layer says of the probe behind it. */
  function Answer(t: Tri): LayerStatus {
    if t == Some(true) then Working else if t == Some(false) then Failing else Undetermined
  }

  /** A layer is blocked exactly when a probe that it needs does not answer yes, and otherwise it is its own probe's
      answer. A registration that stands needs no working service. */
  lemma LayersTellProbes(p: Probes)
    ensures var c := RunChecks(p);
            var reached := p.interface == Some(true) && p.gateway == Some(true);
            var served := reached && p.internet && p.dns == Some(true);
            && LayerStatusOf(c, LocalNetworkLayer) == Answer(p.interface)
            && LayerStatusOf(c, GatewayLayer) == (if p.interface == Some(true) then Answer(p.gateway) else Blocked)
            && LayerStatusOf(c, DnsLayer) == (if reached then Answer(p.dns) else Blocked)
            && LayerStatusOf(c, InternetLayer) == (if reached then Answer(Some(p.internet)) else Blocked)
            && LayerStatusOf(c, ServicesLayer) == (if served then Answer(Some(p.service)) else Blocked)
            && LayerStatusOf(c, AsteriskLayer) == Answer(p.asterisk)
            && LayerStatusOf(c, RegistrationLayer) ==
               (if p.asterisk == Some(true) && (p.registration == Some(true) || (served && p.service))
                then Answer(p.registration) else Blocked)
            && LayerStatusOf(c, IaxLayer) == (if p.asterisk == Some(true) then Answer(p.iax) else Blocked)
  {
    hide ReadableLinks;
  }

  /** The links are read only over a running IAX layer; they fail when some row is still connecting. */
  lemma LinksTellRows(p: Probes)
    ensures LayerStatusOf(RunChecks(p), LinksLayer) ==
            if p.asterisk != Some(true) || p.iax != Some(true) then Blocked
            else if p.links.None? then Undetermined
            else if Connecting in p.links.value then Failing else Working
  {
    if p.links.Some? {
      ReadableRows(p.links.value);
    }
    hide ReadableLinks;
  }

  // ---------------------------------------------------------------------------------------------------
  // The observer.

  datatype Thresholds = Thresholds(failure: nat, recovery: nat)

  datatype Diagnosis = HealthyNow | NoDiagnosis | Transient | Recovering | Sustained(domain: Domain)

  datatype Status = StatusHealthy | StatusDegraded | StatusOffline | StatusUnavailable

  datatype State = State(domain: Domain, failures: nat, successes: nat, sustained: bool,
                         status: Status, diagnosis: Diagnosis, recoveringFrom: Option<Domain>)

  predicate IsFailure(d: Domain) {
    d != Healthy && d != Unavailable
  }

  predicate IsNetwork(d: Domain) {
    d == LocalNetwork || d == Gateway || d == ExternalInternet
  }

  function Advanced(t: Thresholds, previous: Option<State>, d: Domain): State {
    var same := previous.Some? && previous.value.domain == d;
    var failures := if d == Healthy then 0 else if same then previous.value.failures + 1 else 1;
    var successes := if d != Healthy then 0 else if same then previous.value.successes + 1 else 1;
    var sustained := IsFailure(d) && failures >= t.failure;
    var recovering := d == Healthy && previous.Some?
                      && (previous.value.sustained || previous.value.diagnosis == Recovering)
                      && successes < t.recovery;
    var (status, diagnosis) :=
      if recovering then (StatusDegraded, Recovering)
      else if d == Healthy then (StatusHealthy, HealthyNow)
      else if d == Unavailable then (StatusUnavailable, NoDiagnosis)
      else if !sustained then (StatusDegraded, Transient)
      else (if IsNetwork(d) then StatusOffline else StatusDegraded, Sustained(d));
    State(d, failures, successes, sustained, status, diagnosis,
          if recovering then Some(previous.value.domain) else None)
  }

  class Observer {
    const thresholds: Thresholds
    var state: Option<State>
    var emitted: seq<Diagnosis>

    constructor (thresholds: Thresholds)
      ensures this.thresholds == thresholds && state == None && emitted == []
    {
      this.thresholds := thresholds;
      state := None;
      emitted := [];
    }

    method Update(d: Domain) returns (published: State)
      modifies this
      ensures published == Advanced(thresholds, old(state), d) && state == Some(published)
      ensures emitted == old(emitted)
                         + if old(state).Some? && old(state).value.diagnosis != published.diagnosis
                           then [published.diagnosis] else []
    {
      var failures, successes := 0, 0;
      var previousDomain: Option<Domain> := None;
      if state.Some? {
        failures, successes := state.value.failures, state.value.successes;
        previousDomain := Some(state.value.domain);
      }
      if d == Healthy {
        successes := if previousDomain == Some(Healthy) then successes + 1 else 1;
        failures := 0;
      } else {
        failures := if previousDomain == Some(d) then failures + 1 else 1;
        successes := 0;
      }
      var sustained := IsFailure(d) && failures >= thresholds.failure;
      var recovering := d == Healthy && state.Some?
                        && (state.value.sustained || state.value.diagnosis == Recovering)
                        && successes < thresholds.recovery;
      var status, diagnosis := StatusHealthy, HealthyNow;
      if d == Healthy && recovering {
        status, diagnosis := StatusDegraded, Recovering;
      } else if d == Healthy {
      } else if d == Unavailable {
        status, diagnosis := StatusUnavailable, NoDiagnosis;
      } else if !sustained {
        status, diagnosis := StatusDegraded, Transient;
      } else if IsNetwork(d) {
        status, diagnosis := StatusOffline, Sustained(d);
      } else {
        status, diagnosis := StatusDegraded, Sustained(d);
      }
      published := State(d, failures, successes, sustained, status, diagnosis,
                         if recovering then previousDomain else None);
      if state.Some? && state.value.diagnosis != diagnosis {
        emitted := emitted + [diagnosis];
      }
      state := Some(published);
    }
  }

  // ---------------------------------------------------------------------------------------------------
  // The state as a function of the whole history.

  function After(t: Thresholds, history: seq<Domain>): Option<State> {
    if history == [] then None
    else Some(Advanced(t, After(t, history[..|history| - 1]), history[|history| - 1]))
  }

  /** The last `n` observations are `d`. */
  ghost predicate EndsWith(history: seq<Domain>, d: Domain, n: nat) {
    n <= |history| && forall i :: |history| - n <= i < |history| ==> history[i] == d
  }

  /** Exactly the last `n` observations are `d`. */
  ghost predicate TrailingRun(history: seq<Domain>, d: Domain, n: nat) {
    && EndsWith(history, d, n)
    && (n < |history| ==> history[|history| - n - 1] != d)
  }

  /** A run of one real failure has reached the threshold. */
  ghost predicate SustainedAt(t: Thresholds, history: seq<Domain>) {
    exists d :: d != Healthy && d != Unavailable && history != [] && history[|history| - 1] == d && EndsWith(history, d, Max(1, t.failure))
  }

  /** A healthy run of `n` observations, shorter than the threshold, directly follows a sustained observation. */
  ghost predicate RecoversAfter(t: Thresholds, history: seq<Domain>, n: nat) {
    && 1 <= n < t.recovery && TrailingRun(history, Healthy, n)
    && SustainedAt(t, history[..|history| - n])
  }

  ghost predicate RecoveringAt(t: Thresholds, history: seq<Domain>) {
    exists n :: RecoversAfter(t, history, n)
  }

  ghost function DiagnosisAt(t: Thresholds, history: seq<Domain>): Diagnosis
    requires history != []
  {
    var d := history[|history| - 1];
    if RecoveringAt(t, history) then Recovering
    else if d == Healthy then HealthyNow
    else if d == Unavailable then NoDiagnosis
    else if SustainedAt(t, history) then Sustained(d)
    else Transient
  }

  lemma RunGrows(history: seq<Domain>, d: Domain, n: nat, last: Domain)
    requires history != [] && TrailingRun(history, d, n) && n > 0
    ensures TrailingRun(history + [last], last, if last == d then n + 1 else 1)
  {
    assert history[|history| - 1] == d;
  }

  lemma {:induction false} CountersAreRuns(t: Thresholds, history: seq<Domain>)
    requires history != []
    ensures var s := After(t, history).value;
            && s.domain == history[|history| - 1]
            && TrailingRun(history, s.domain, if s.domain == Healthy then s.successes else s.failures)
            && (if s.domain == Healthy then s.failures == 0 && s.successes > 0 else s.successes == 0 && s.failures > 0)
  {
    hide TrailingRun;
    var init, last := history[..|history| - 1], history[|history| - 1];
    assert history == init + [last];
    assert After(t, history).value == Advanced(t, After(t, init), last);
    assert init == [] ==> After(t, init) == None;
    hide After;
    if init != [] {
      CountersAreRuns(t, init);
      var p := After(t, init).value;
      RunGrows(init, p.domain, if p.domain == Healthy then p.successes else p.failures, last);
    } else {
      SingleRun(last);
    }
  }

  lemma SingleRun(d: Domain)
    ensures TrailingRun([d], d, 1)
  {
  }

  lemma RunIsLongest(history: seq<Domain>, d: Domain, n: nat, m: nat)
    requires TrailingRun(history, d, n) && EndsWith(history, d, m)
    ensures m <= n
  {
    if n < |history| {
      assert history[|history| - n - 1] != d;
    }
  }

  lemma SustainedMeansRun(t: Thresholds, history: seq<Domain>)
    requires history != []
    ensures After(t, history).value.sustained <==> SustainedAt(t, history)
  {
    CountersAreRuns(t, history);
    var s := After(t, history).value;
    if EndsWith(history, s.domain, Max(1, t.failure)) && IsFailure(s.domain) {
      RunIsLongest(history, s.domain, s.failures, Max(1, t.failure));
    }
  }

  /** What a recovery says about the end of the history. */
  lemma RecoveryShape(t: Thresholds, history: seq<Domain>, m: nat)
    requires RecoversAfter(t, history, m)
    ensures m < |history| && history[|history| - 1] == Healthy
    ensures forall n: nat :: TrailingRun(history, Healthy, n) ==> m == n
  {
    forall n: nat | TrailingRun(history, Healthy, n) ensures m == n {
      RunIsLongest(history, Healthy, n, m);
      RunIsLongest(history, Healthy, m, n);
    }
  }

  /** One more healthy observation. */
  lemma RecoveryContinues(t: Thresholds, init: seq<Domain>, n: nat)
    requires init != [] && n <= |init|
    ensures RecoversAfter(t, init + [Healthy], n + 1) <==>
            && n + 1 < t.recovery && TrailingRun(init + [Healthy], Healthy, n + 1)
            && if n == 0 then SustainedAt(t, init) else RecoversAfter(t, init, n)
  {
    var history := init + [Healthy];
    assert history[..|history| - (n + 1)] == init[..|init| - n];
    assert init[..|init|] == init;
    hide SustainedAt;
    if TrailingRun(history, Healthy, n + 1) {
      assert forall i :: |init| - n <= i < |init| ==> history[i] == init[i];
      assert n < |init| ==> history[|history| - (n + 1) - 1] == init[|init| - n - 1];
    }
  }

  lemma {:induction false} RecoveringMeansFollows(t: Thresholds, history: seq<Domain>)
    requires history != []
    ensures After(t, history).value.diagnosis == Recovering <==> RecoveringAt(t, history)
    ensures After(t, history).value.diagnosis == Recovering ==>
              RecoversAfter(t, history, After(t, history).value.successes)
  {
    var init, last := history[..|history| - 1], history[|history| - 1];
    var s := After(t, history).value;
    assert history == init + [last];
    CountersAreRuns(t, history);
    forall m | RecoversAfter(t, history, m) ensures last == Healthy && init != [] && m == s.successes {
      RecoveryShape(t, history, m);
    }
    if last == Healthy && init != [] {
      var p := After(t, init).value;
      RecoveringMeansFollows(t, init);
      SustainedMeansRun(t, init);
      CountersAreRuns(t, init);
      assert s.successes <= |history|;
      RecoveryContinues(t, init, s.successes - 1);
      hide RecoversAfter, SustainedAt, TrailingRun, After;
      if p.domain == Healthy && RecoversAfter(t, init, p.successes) {
        assert RecoveringAt(t, init);
      }
      if RecoversAfter(t, history, s.successes) {
        assert RecoveringAt(t, history);
      }
    }
  }

  /** The persisted record is a closed form of the history: the counters are trailing run lengths, `sustained`
      holds when a run of one real failure has reached its threshold, and the diagnosis follows. */
  lemma StateIsFunctionOfHistory(t: Thresholds, history: seq<Domain>)
    requires history != []
    ensures var s := After(t, history).value;
            && TrailingRun(history, s.domain, if s.domain == Healthy then s.successes else s.failures)
            && s.failures * s.successes == 0
            && (s.sustained <==> SustainedAt(t, history))
            && s.diagnosis == DiagnosisAt(t, history)
            && (s.status == StatusHealthy <==> DiagnosisAt(t, history) == HealthyNow)
            && (s.status == StatusUnavailable <==> DiagnosisAt(t, history) == NoDiagnosis)
            && (s.status == StatusOffline <==>
                  && SustainedAt(t, history)
                  && (s.domain == LocalNetwork || s.domain == Gateway || s.domain == ExternalInternet))
            && s.recoveringFrom == if RecoveringAt(t, history) then Some(history[|history| - 2]) else None
  {
    CountersAreRuns(t, history);
    SustainedMeansRun(t, history);
    RecoveringMeansFollows(t, history);
  }

  /** The events of a run. */
  function Emitted(t: Thresholds, history: seq<Domain>): seq<Diagnosis> {
    if |history| <= 1 then []
    else
      var init := history[..|history| - 1];
      var now := After(t, history).value.diagnosis;
      Emitted(t, init) + if After(t, init).value.diagnosis != now then [now] else []
  }

  /** The observations after the first at which the diagnosis differs from the one before. */
  ghost function Changes(t: Thresholds, history: seq<Domain>, k: nat): seq<Diagnosis>
    requires 1 <= k <= |history|
    decreases |history| - k
  {
    if k == |history| then []
    else (if DiagnosisAt(t, history[..k + 1]) != DiagnosisAt(t, history[..k])
          then [DiagnosisAt(t, history[..k + 1])] else []) + Changes(t, history, k + 1)
  }

  lemma {:induction false} ChangesAppend(t: Thresholds, history: seq<Domain>, k: nat)
    requires 1 <= k < |history|
    ensures var init := history[..|history| - 1];
            Changes(t, history, k) ==
            Changes(t, init, k)
            + if DiagnosisAt(t, history) != DiagnosisAt(t, init) then [DiagnosisAt(t, history)] else []
    decreases |history| - k
  {
    hide DiagnosisAt;
    var init := history[..|history| - 1];
    assert history[..|history|] == history;
    if k < |init| {
      ChangesAppend(t, history, k + 1);
      assert init[..k] == history[..k] && init[..k + 1] == history[..k + 1];
    } else {
      assert history[..k] == init && history[..k + 1] == history;
    }
  }

  /** Events are emitted exactly at the changes of the diagnosis of the history. */
  lemma {:induction false} EventsAreDiagnosisChanges(t: Thresholds, history: seq<Domain>)
    requires history != []
    ensures Emitted(t, history) == Changes(t, history, 1)
  {
    hide DiagnosisAt, TrailingRun, SustainedAt, After;
    if |history| > 1 {
      var init := history[..|history| - 1];
      EventsAreDiagnosisChanges(t, init);
      ChangesAppend(t, history, 1);
      StateIsFunctionOfHistory(t, init);
      StateIsFunctionOfHistory(t, history);
    }
  }

  // ---------------------------------------------------------------------------------------------------
  // The online/offline field for existing consumers.

  datatype Legacy = LegacyOnline | LegacyOffline | LegacyUnknown

  function LegacyInternetState(s: State, internet: Tri): Legacy {
    if s.status == StatusOffline then LegacyOffline
    else if s.diagnosis == Transient then LegacyOnline
    else if s.diagnosis == Recovering then
      if s.recoveringFrom.Some? && IsNetwork(s.recoveringFrom.value) then LegacyOffline else LegacyOnline
    else if internet == YES then LegacyOnline
    else LegacyUnknown
  }

  /** While recovering, the field holds "offline" exactly on the first healthy observation after a sustained
      network failure. */
  lemma LegacyHoldsOfflineIff(t: Thresholds, history: seq<Domain>, internet: Tri)
    requires history != [] && RecoveringAt(t, history)
    ensures var s := After(t, history).value;
            LegacyInternetState(s, internet) == LegacyOffline <==>
            s.successes == 1 && IsNetwork(history[|history| - 2])
  {
    RecoveringMeansFollows(t, history);
    CountersAreRuns(t, history);
    var init := history[..|history| - 1];
    if init != [] {
      CountersAreRuns(t, init);
    }
  }

  /** The field over every history: "offline" during a sustained network failure and on that first healthy observation,
      "unknown" when nothing is transient or recovering and the Internet probe did not answer, and "online" otherwise. */
  lemma LegacyFieldIff(t: Thresholds, history: seq<Domain>, internet: Tri)
    requires history != []
    ensures var field := LegacyInternetState(After(t, history).value, internet);
            var network := (d: Domain) => d == LocalNetwork || d == Gateway || d == ExternalInternet;
            var last := history[|history| - 1];
            var steady := DiagnosisAt(t, history) != Transient && DiagnosisAt(t, history) != Recovering;
            var outage := SustainedAt(t, history) && network(last);
            && (field == LegacyOffline <==>
                  outage || (RecoveringAt(t, history) && network(history[|history| - 2])))
            && (field == LegacyUnknown <==> steady && !outage && internet != Some(true))
  {
    StateIsFunctionOfHistory(t, history);
    CountersAreRuns(t, history);
    hide After, SustainedAt, RecoveringAt, TrailingRun;
  }

  /** So with a recovery threshold of at most two it holds for the whole recovery. */
  lemma LegacyHoldsUpToTwo(t: Thresholds, history: seq<Domain>, internet: Tri)
    requires history != [] && RecoveringAt(t, history) && t.recovery <= 2
    ensures LegacyInternetState(After(t, history).value, internet) == LegacyOffline
            <==> IsNetwork(history[|history| - 2])
  {
    RecoveringMeansFollows(t, history);
    LegacyHoldsOfflineIff(t, history, internet);
  }

  /** And with a threshold of three the second healthy observation already reports "online". */
  lemma LegacyDropsAtThree()
    ensures var t := Thresholds(2, 3);
            var history := [Gateway, Gateway, Healthy, Healthy];
            && After(t, history).value.diagnosis == Recovering
            && LegacyInternetState(After(t, history).value, YES) == LegacyOnline
            && LegacyInternetState(After(t, history[..3]).value, YES) == LegacyOffline
  {
    var t := Thresholds(2, 3);
    var history := [Gateway, Gateway, Healthy, Healthy];
    assert history[..3] == [Gateway, Gateway, Healthy];
    assert history[..3][..2] == [Gateway, Gateway];
    assert [Gateway, Gateway][..1] == [Gateway];
    var s1 := After(t, [Gateway]).value;
    var s2 := After(t, [Gateway, Gateway]).value;
    var s3 := After(t, [Gateway, Gateway, Healthy]).value;
    assert s1.failures == 1 && s2.sustained && s2.domain == Gateway;
    assert s3 == Advanced(t, Some(s2), Healthy) && s3.recoveringFrom == Some(Gateway);
    assert After(t, history).value == Advanced(t, Some(s3), Healthy);
  }
}
