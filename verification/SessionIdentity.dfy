/**
 Session identities of app/core/stream_session_identity.py.  Texts are taken as trimmed and lower case with null
 as "", times as parsed seconds.
 */
module SessionIdentity {
  import opened Options

  datatype Session = Session(
    sessionKey: string,
    server: string,
    user: string,
    machine: string,
    ip: string,
    subnet: Option<(int, string)>,
    product: string,
    client: string,
    device: string,
    series: string,
    title: string,
    family: string,
    startedAt: Option<int>,
    lastSeenAt: Option<int>)

  const TRANSITION := 90
  const MATCH_SCORE := 5
  const UNKNOWN_DELTA := 999999

  function Abs(x: int): int {
    if x < 0 then -x else x
  }

  function Or(a: Option<int>, b: Option<int>): Option<int> {
    if a.Some? then a else b
  }

  function Delta(a: Option<int>, b: Option<int>): int {
    if a.Some? && b.Some? then Abs(a.value - b.value) else UNKNOWN_DELTA
  }

  /** seconds_between_sessions: last sighting first. */
  function SecondsBetween(a: Session, b: Session): int {
    Delta(Or(a.lastSeenAt, a.startedAt), Or(b.lastSeenAt, b.startedAt))
  }

  /** session_time_delta_seconds: start first. */
  function StartDelta(a: Session, b: Session): int {
    Delta(Or(a.startedAt, a.lastSeenAt), Or(b.startedAt, b.lastSeenAt))
  }

  predicate SameMediaFamily(a: Session, b: Session) {
    (a.series != "" && a.series == b.series) || (a.title != "" && a.title == b.title)
  }

  /** household_match_score; `subnet` is the (version, network prefix) of a valid address. */
  function HouseholdScore(a: Session, b: Session): int {
    (if a.ip != "" && a.ip == b.ip then 10
     else if a.ip != "" && b.ip != "" && a.subnet.Some? && a.subnet == b.subnet then 4 else 0)
    + (if a.machine != "" && a.machine == b.machine then 10 else 0)
    + (if a.device != "" && a.device == b.device then 3 else 0)
    + (if a.product != "" && a.product == b.product then 2 else 0)
    + (if SameMediaFamily(a, b) then 2 else 0)
    + (if SecondsBetween(a, b) <= TRANSITION then 3 else 0)
  }

  predicate SameHousehold(a: Session, b: Session) {
    HouseholdScore(a, b) >= MATCH_SCORE
  }

  function StripBarsLeft(s: string): string {
    if s != "" && s[0] == '|' then StripBarsLeft(s[1..]) else s
  }

  function StripBarsRight(s: string): string {
    if s != "" && s[|s| - 1] == '|' then StripBarsRight(s[..|s| - 1]) else s
  }

  /** session_endpoint_identity: the endpoint, "" if there is none, and whether it is strong. */
  function Endpoint(s: Session): (string, bool) {
    if s.machine != "" then ("machine:" + s.machine, true)
    else
      var descriptor := StripBarsRight(StripBarsLeft(s.product + "|" + s.client + "|" + s.device));
      if s.ip == "" || s.ip == "unknown" || descriptor == "" then ("", false)
      else ("client:" + s.ip + "|" + descriptor, false)
  }

  /** The score does not depend on the order of the two sessions. */
  lemma ScoreIsSymmetric(a: Session, b: Session)
    ensures HouseholdScore(a, b) == HouseholdScore(b, a)
    ensures SameHousehold(a, b) <==> SameHousehold(b, a)
  {
  }

  /** Endpoints of sessions of one machine are strong, and no weak endpoint equals a strong one. */
  lemma StrengthByEndpoint(a: Session, b: Session)
    requires Endpoint(a).0 == Endpoint(b).0
    ensures Endpoint(a).1 == Endpoint(b).1
    ensures Endpoint(a).1 ==> a.machine == b.machine != ""
  {
    if a.machine != "" {
      assert Endpoint(a).0[0] == 'm';
      assert Endpoint(a).0[8..] == a.machine;
    }
    if b.machine != "" {
      assert Endpoint(b).0[0] == 'm';
      assert Endpoint(b).0[8..] == b.machine;
    }
  }

  // ----- what the score means

  /** One address range, both addresses known. */
  predicate SameSubnet(a: Session, b: Session) {
    a.ip != "" && b.ip != "" && a.subnet.Some? && b.subnet.Some? && a.subnet.value == b.subnet.value
  }

  predicate SameDevice(a: Session, b: Session) {
    a.device != "" && a.device == b.device
  }

  /** The same product, or the same series, or the same title. */
  predicate SameContent(a: Session, b: Session) {
    || (a.product != "" && a.product == b.product)
    || (a.series != "" && a.series == b.series)
    || (a.title != "" && a.title == b.title)
  }

  /** Both times are known and at most 90 seconds apart. */
  predicate CloseInTime(a: Session, b: Session) {
    var x, y := if a.lastSeenAt.Some? then a.lastSeenAt else a.startedAt,
                if b.lastSeenAt.Some? then b.lastSeenAt else b.startedAt;
    x.Some? && y.Some? && -90 <= x.value - y.value <= 90
  }

  /**
   Two sessions are of one household exactly if they have the same address or machine, or the same address range and
   one more thing in common, or two of: the device, the time, and what plays.
   */
  lemma HouseholdIff(a: Session, b: Session)
    ensures SameHousehold(a, b) <==>
              || (a.ip != "" && a.ip == b.ip)
              || (a.machine != "" && a.machine == b.machine)
              || (SameSubnet(a, b) && (SameDevice(a, b) || CloseInTime(a, b) || SameContent(a, b)))
              || (SameDevice(a, b) && (CloseInTime(a, b) || SameContent(a, b)))
              || (CloseInTime(a, b) && SameContent(a, b))
  {
  }

  // ----- what an endpoint is

  /** `n` bars. */
  function Bars(n: nat): string {
    seq(n, i => '|')
  }

  predicate BarAtEnd(s: string) {
    s != "" && (s[0] == '|' || s[|s| - 1] == '|')
  }

  lemma {:induction false} StripLeftIs(s: string) returns (n: nat)
    ensures s == Bars(n) + StripBarsLeft(s) && (StripBarsLeft(s) != "" ==> StripBarsLeft(s)[0] != '|')
    decreases |s|
  {
    n := 0;
    if s != "" && s[0] == '|' {
      n := StripLeftIs(s[1..]);
      n := n + 1;
      assert s == ['|'] + s[1..];
    }
  }

  lemma {:induction false} StripRightIs(s: string) returns (n: nat)
    ensures s == StripBarsRight(s) + Bars(n)
    ensures StripBarsRight(s) != "" ==> StripBarsRight(s)[|StripBarsRight(s)| - 1] != '|'
    decreases |s|
  {
    n := 0;
    if s != "" && s[|s| - 1] == '|' {
      n := StripRightIs(s[..|s| - 1]);
      n := n + 1;
      assert s == s[..|s| - 1] + ['|'];
    }
  }

  /** `core` is what product, client and device leave between the outer bars. */
  ghost predicate Describes(s: Session, core: string) {
    !BarAtEnd(core) && exists m, n :: s.product + "|" + s.client + "|" + s.device == Bars(m) + core + Bars(n)
  }

  /**
   The endpoint: the machine if it is known, else the address with the description, unless one of them is missing.
   */
  lemma EndpointIs(s: Session) returns (core: string)
    ensures Describes(s, core)
    ensures Endpoint(s) == if s.machine != "" then ("machine:" + s.machine, true)
                           else if s.ip !in {"", "unknown"} && core != "" then ("client:" + s.ip + "|" + core, false)
                           else ("", false)
  {
    var text := s.product + "|" + s.client + "|" + s.device;
    var left := StripBarsLeft(text);
    var m := StripLeftIs(text);
    var n := StripRightIs(left);
    core := StripBarsRight(left);
    assert text == Bars(m) + core + Bars(n);
  }
}
