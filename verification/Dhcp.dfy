/**
  The DHCP client: a timed state machine that discovers a server, requests an address, and renews it.
  Times are in microseconds.
 */
module DhcpModel {
  import opened Options
  import opened Shifts
  import opened Polling

  const DEFAULT_LEASE_DURATION: nat := 120_000_000
  const BROADCAST: nat := 0xffff_ffff
  const UNSPECIFIED: nat := 0
  const MAX_DNS_SERVERS: nat := 3

  datatype ServerInfo = ServerInfo(address: nat, identifier: nat)

  datatype Config = Config(server: ServerInfo, address: nat, prefixLen: nat, router: Option<nat>, dnsServers: seq<nat>)

  datatype ClientState =
    | Discovering(retryAt: int)
    | Requesting(retryAt: int, retry: nat, server: ServerInfo, requestedIp: nat)
    | Renewing(config: Config, renewAt: int, rebindAt: int, rebinding: bool, expiresAt: int)

  datatype RetryConfig = RetryConfig(discoverTimeout: nat, initialRequestTimeout: nat, requestRetries: nat,
                                     minRenewTimeout: nat, maxRenewTimeout: nat)

  datatype Event = Deconfigured | Configured(config: Config)

  datatype Client = Client(state: ClientState, configChanged: bool, transactionId: nat, maxLease: Option<nat>,
                           retry: RetryConfig, ignoreNaks: bool, hasBuffer: bool)

  datatype MessageType = Offer | Ack | Nak | OtherType

  /** A parsed DHCP message; durations are in seconds, as on the wire. */
  datatype Message = Message(kind: MessageType, src: nat, forUs: bool, transactionId: nat,
                             serverIdentifier: Option<nat>,
                             yourIp: nat, subnetMask: Option<nat>, router: Option<nat>, dnsServers: seq<nat>,
                             lease: Option<nat>, renew: Option<nat>, rebind: Option<nat>)

  datatype OutKind = Discover | Request

  /** What goes out: addresses of the packet, and the fields that vary. */
  datatype Outgoing = Outgoing(kind: OutKind, src: nat, dst: nat, transactionId: nat, clientIp: nat,
                               requestedIp: Option<nat>, serverIdentifier: Option<nat>)

  function Min(a: nat, b: nat): nat {
    if a < b then a else b
  }

  function Max(a: nat, b: nat): nat {
    if a < b then b else a
  }

  predicate IsUnicast(addr: nat) {
    addr != BROADCAST && addr != UNSPECIFIED && !(0xe000_0000 <= addr < 0xf000_0000)
  }

  /** The length of a mask of leading ones, if it is one. */
  function PrefixLen(mask: nat, n: nat): Option<nat>
    requires n <= 32
  {
    if mask == 0x1_0000_0000 - Shl(1, 32 - n) then Some(n) else if n == 0 then None else PrefixLen(mask, n - 1)
  }

  function Unicasts(addrs: seq<nat>): seq<nat> {
    if |addrs| == 0 then []
    else (if IsUnicast(addrs[0]) then [addrs[0]] else []) + Unicasts(addrs[1..])
  }

  function Take(s: seq<nat>, n: nat): seq<nat> {
    if |s| <= n then s else s[..n]
  }

  function Micros(secs: Option<nat>): Option<nat> {
    if secs.Some? then Some(1_000_000 * secs.value) else None
  }

  /** T1 and T2 for a lease: the server's if they are in order, else filled in. */
  function RenewTimes(renew: Option<nat>, rebind: Option<nat>, lease: nat): (nat, nat) {
    if renew.Some? && rebind.Some? && renew.value < rebind.value < lease then (renew.value, rebind.value)
    else if renew.Some? && rebind.None? && renew.value < lease then
      (renew.value, renew.value + (lease - renew.value) * 3 / 4)
    else if renew.None? && rebind.Some? && rebind.value < lease then (Min(lease / 2, rebind.value), rebind.value)
    else (lease / 2, lease * 7 / 8)
  }

  /** The lease an ACK grants, or nothing when it is unusable. */
  function ParseAck(now: int, m: Message, maxLease: Option<nat>, server: ServerInfo): Option<ClientState> {
    if m.subnetMask.None? || PrefixLen(m.subnetMask.value, 32).None? || !IsUnicast(m.yourIp) then None
    else
      var offered := if m.lease.Some? then 1_000_000 * m.lease.value else DEFAULT_LEASE_DURATION;
      var lease := if maxLease.Some? then Min(offered, maxLease.value) else offered;
      var config := Config(server, m.yourIp, PrefixLen(m.subnetMask.value, 32).value, m.router,
                           Take(Unicasts(m.dnsServers), MAX_DNS_SERVERS));
      var (t1, t2) := RenewTimes(Micros(m.renew), Micros(m.rebind), lease);
      Some(Renewing(config, now + t1, now + t2, false, now + lease))
  }

  function ResetClient(c: Client): Client {
    c.(state := Discovering(0), configChanged := c.configChanged || c.state.Renewing?)
  }

  /** Messages for another client, of another transaction or without a server identifier are dropped. */
  predicate Relevant(c: Client, m: Message) {
    m.forUs && m.transactionId == c.transactionId && m.serverIdentifier.Some?
  }

  function Process(c: Client, now: int, m: Message): Client {
    if !Relevant(c, m) then c
    else match (c.state, m.kind)
    case (Discovering(_), Offer) =>
      if !IsUnicast(m.yourIp) then c
      else c.(state := Requesting(now, 0, ServerInfo(m.src, m.serverIdentifier.value), m.yourIp))
    case (Requesting(_, _, server, _), Ack) =>
      (match ParseAck(now, m, c.maxLease, server)
       case None => c
       case Some(s) => c.(state := s, configChanged := true))
    case (Requesting(_, _, _, _), Nak) => if c.ignoreNaks then c else ResetClient(c)
    case (Renewing(config, _, _, _, _), Ack) =>
      (match ParseAck(now, m, c.maxLease, config.server)
       case None => c
       case Some(s) =>
         var moved := s.Renewing? && s.config != config;
         c.(state := s, configChanged := c.configChanged || moved || c.hasBuffer))
    case (Renewing(_, _, _, _, _), Nak) => if c.ignoreNaks then c else ResetClient(c)
    case _ => c
  }

  /** When the next renewal is tried: halfway to T2, but not sooner than the minimum nor later than T2. */
  function RenewDelay(r: RetryConfig, left: nat): nat {
    Min(Min(Max(r.minRenewTimeout, left / 2), left), r.maxRenewTimeout)
  }

  function RebindDelay(r: RetryConfig, left: nat): nat {
    Min(Max(r.minRenewTimeout, left / 2), r.maxRenewTimeout)
  }

  const WORD: nat := 0x1_0000_0000_0000_0000

  /** A 64-bit count of microseconds, read as a signed number when it is added to an instant. */
  function Signed(x: nat): int {
    if x % WORD < WORD / 2 then x % WORD else x % WORD - WORD
  }

  /** The wait before the next REQUEST: doubled every two tries, in 64 bits. */
  function Backoff(r: RetryConfig, retry: nat): int {
    Signed(Shl(r.initialRequestTimeout, (retry / 2) % 64))
  }

  function Left(until: int, now: int): nat {
    if until >= now then until - now else now - until
  }

  /** `sent` says whether the device took the message; `xid` is the fresh transaction id. */
  function Dispatch(c: Client, now: int, sent: bool, xid: nat): (Client, Option<Outgoing>) {
    match c.state
    case Discovering(retryAt) =>
      if now < retryAt || !sent then (c, None)
      else (c.(state := Discovering(now + c.retry.discoverTimeout), transactionId := xid),
            Some(Outgoing(Discover, UNSPECIFIED, BROADCAST, xid, UNSPECIFIED, None, None)))
    case Requesting(retryAt, retry, server, ip) =>
      if now < retryAt then (c, None)
      else if retry >= c.retry.requestRetries then (ResetClient(c), None)
      else if !sent then (c, None)
      else (c.(state := Requesting(now + Backoff(c.retry, retry), retry + 1, server, ip), transactionId := xid),
            Some(Outgoing(Request, UNSPECIFIED, BROADCAST, xid, UNSPECIFIED, Some(ip), Some(server.identifier))))
    case Renewing(config, renewAt, rebindAt, rebinding, expiresAt) =>
      if expiresAt <= now then (ResetClient(c), None)
      else if now < renewAt || (rebinding && now < rebindAt) then (c, None)
      else
        var rebinds := rebinding || now >= rebindAt;
        if !sent then (c.(state := c.state.(rebinding := rebinds)), None)
        else
          var next :=
            if rebinds then Renewing(config, renewAt, now + RebindDelay(c.retry, Left(expiresAt, now)), rebinds,
                                     expiresAt)
            else Renewing(config, now + RenewDelay(c.retry, Left(rebindAt, now)), rebindAt, rebinds, expiresAt);
          (c.(state := next, transactionId := xid),
           Some(Outgoing(Request, config.address, if rebinds then BROADCAST else config.server.address, xid,
                         config.address, None, None)))
  }

  function Earlier(a: int, b: int): int {
    if a < b then a else b
  }

  function PollAt(c: Client): int {
    match c.state
    case Discovering(retryAt) => retryAt
    case Requesting(retryAt, _, _, _) => retryAt
    case Renewing(_, renewAt, rebindAt, rebinding, expiresAt) =>
      Earlier(if rebinding then rebindAt else Earlier(renewAt, rebindAt), expiresAt)
  }

  function Poll(c: Client): (Client, Option<Event>) {
    if !c.configChanged then (c, None)
    else (c.(configChanged := false), Some(CurrentEvent(c)))
  }

  /** What the state means for the interface. */
  function CurrentEvent(c: Client): Event {
    if c.state.Renewing? then Configured(c.state.config) else Deconfigured
  }

  // ----- deadlines

  /** T1 comes no later than T2, and T2 no later than the end of the lease until rebinding starts. */
  ghost predicate TimersOk(s: ClientState) {
    s.Renewing? ==> s.renewAt <= s.rebindAt && (!s.rebinding ==> s.rebindAt <= s.expiresAt)
  }

  ghost predicate Positive(r: RetryConfig) {
    0 < r.discoverTimeout < WORD / 2 && 0 < r.minRenewTimeout < WORD / 2 && 0 < r.maxRenewTimeout
  }

  lemma RenewTimesOrdered(renew: Option<nat>, rebind: Option<nat>, lease: nat)
    ensures var (t1, t2) := RenewTimes(renew, rebind, lease); t1 <= t2 <= lease
  {
  }

  lemma ProcessTimersOk(c: Client, now: int, m: Message)
    requires TimersOk(c.state)
    ensures TimersOk(Process(c, now, m).state)
  {
    var offered := if m.lease.Some? then 1_000_000 * m.lease.value else DEFAULT_LEASE_DURATION;
    var lease := if c.maxLease.Some? then Min(offered, c.maxLease.value) else offered;
    RenewTimesOrdered(Micros(m.renew), Micros(m.rebind), lease);
  }

  lemma DispatchTimersOk(c: Client, now: int, sent: bool, xid: nat)
    requires TimersOk(c.state)
    ensures TimersOk(Dispatch(c, now, sent, xid).0.state)
  {
  }

  /** The deadline is exact: `dispatch` sends something or gives up exactly from `poll_at` on. */
  lemma PollAtIsExact(c: Client, now: int, xid: nat)
    requires TimersOk(c.state)
    ensures var (c', out) := Dispatch(c, now, true, xid);
            && (now < PollAt(c) ==> c' == c && out.None?)
            && (now >= PollAt(c) ==> out.Some? || (c'.state == Discovering(0) && !c.state.Discovering?))
  {
  }

  /** After something was sent the next deadline lies strictly later, unless the doubled wait has left 63 bits. */
  lemma SendMovesDeadline(c: Client, now: int, xid: nat)
    requires TimersOk(c.state) && Positive(c.retry) && Dispatch(c, now, true, xid).1.Some?
    ensures PollAt(Dispatch(c, now, true, xid).0) > now <==>
            (c.state.Requesting? ==> Backoff(c.retry, c.state.retry) > 0)
  {
  }

  /** As long as the doubled wait fits 63 bits it is what one expects, and the deadline moves. */
  lemma BackoffFits(r: RetryConfig, retry: nat)
    requires retry / 2 < 64 && Shl(r.initialRequestTimeout, retry / 2) < WORD / 2
    ensures Backoff(r, retry) == Shl(r.initialRequestTimeout, retry / 2)
    ensures r.initialRequestTimeout > 0 ==> Backoff(r, retry) > 0
  {
    ShlMonotone(r.initialRequestTimeout, r.initialRequestTimeout, retry / 2);
  }

  const DEFAULT_REQUEST_TIMEOUT: nat := 5_000_000

  /**
    With the default timeout of five seconds the deadline moves on the first 82 tries of a request phase.
    The 83rd sets it in the past; a configuration with more retries than that sends REQUESTs without waiting.
   */
  lemma DefaultBackoff(r: RetryConfig, retry: nat)
    requires r.initialRequestTimeout == DEFAULT_REQUEST_TIMEOUT
    ensures retry < 82 ==> Backoff(r, retry) == Shl(DEFAULT_REQUEST_TIMEOUT, retry / 2) > 0
    ensures Backoff(r, 82) < 0
  {
    FortyDoublings(r.initialRequestTimeout);
    if retry < 82 {
      ShlMonotoneShift(r.initialRequestTimeout, retry / 2, 40);
      BackoffFits(r, retry);
    }
  }

  lemma FortyDoublings(x: nat)
    ensures Shl(x, 40) == 0x100_0000_0000 * x && Shl(x, 41) == 0x200_0000_0000 * x
  {
    ShlSplit(x, 10, 10);
    ShlSplit(x, 20, 10);
    ShlSplit(x, 30, 10);
    ShlTen(x);
    ShlTen(1024 * x);
    ShlTen(1024 * (1024 * x));
    ShlTen(1024 * (1024 * (1024 * x)));
  }

  // ----- every run

  /**
    A client with its history: the last event its owner was given, how many REQUESTs the current request
    phase has sent, and the largest number of retries configured during it.
   */
  datatype World = World(c: Client, lastEvent: Option<Event>, requests: nat, limit: nat)

  datatype Action =
    | Receive(now: int, m: Message)
    | Transmit(now: int, sent: bool, xid: nat)
    | Ask
    | Restart
    | SetMaxLease(maxLease: Option<nat>)
    | SetIgnoreNaks(ignoreNaks: bool)
    | SetRetryConfig(retry: RetryConfig)
    | SetReceiveBuffer

  function Step(w: World, a: Action): World {
    match a
    case Receive(now, m) =>
      var c' := Process(w.c, now, m);
      if !w.c.state.Requesting? && c'.state.Requesting? then
          w.(c := c', requests := 0, limit := c'.retry.requestRetries)
      else w.(c := c')
    case Transmit(now, sent, xid) =>
      var (c', out) := Dispatch(w.c, now, sent, xid);
      w.(c := c', requests := if w.c.state.Requesting? && out.Some? then w.requests + 1 else w.requests)
    case Ask =>
      var (c', e) := Poll(w.c);
      w.(c := c', lastEvent := if e.Some? then e else w.lastEvent)
    case Restart => w.(c := ResetClient(w.c))
    case SetMaxLease(maxLease) => w.(c := w.c.(maxLease := maxLease))
    case SetIgnoreNaks(ignoreNaks) => w.(c := w.c.(ignoreNaks := ignoreNaks))
    case SetRetryConfig(retry) => w.(c := w.c.(retry := retry), limit := Max(w.limit, retry.requestRetries))
    case SetReceiveBuffer => w.(c := w.c.(hasBuffer := true))
  }

  /** What the owner was told last is true, the timers are in order, and the retries are counted. */
  ghost predicate WorldInv(w: World) {
    && TimersOk(w.c.state)
    && (!w.c.configChanged ==> w.lastEvent == Some(CurrentEvent(w.c)))
    && (w.c.state.Requesting? ==> w.requests == w.c.state.retry <= w.limit && w.c.retry.requestRetries <= w.limit)
  }

  lemma ReceiveEvent(c: Client, now: int, m: Message)
    ensures var c' := Process(c, now, m);
            !c'.configChanged ==> !c.configChanged && CurrentEvent(c') == CurrentEvent(c)
    ensures var c' := Process(c, now, m);
            c'.state.Requesting? ==>
                (c'.state == c.state || (!c.state.Requesting? && c'.state.retry == 0)) && c'.retry == c.retry
  {
  }

  lemma TransmitEvent(c: Client, now: int, sent: bool, xid: nat)
    ensures var (c', out) := Dispatch(c, now, sent, xid);
            && (!c'.configChanged ==> !c.configChanged && CurrentEvent(c') == CurrentEvent(c))
            && c'.retry == c.retry
            && (c'.state.Requesting? ==>
                  c.state.Requesting? && c'.state.retry == c.state.retry + (if out.Some? then 1 else 0))
            && (c.state.Requesting? && out.Some? ==> c.state.retry < c.retry.requestRetries)
  {
  }

  lemma StepInv(w: World, a: Action)
    requires WorldInv(w)
    ensures WorldInv(Step(w, a))
  {
    match a
    case Receive(now, m) =>
      ProcessTimersOk(w.c, now, m);
      ReceiveEvent(w.c, now, m);
    case Transmit(now, sent, xid) =>
      DispatchTimersOk(w.c, now, sent, xid);
      TransmitEvent(w.c, now, sent, xid);
    case _ =>
  }

  function Run(w: World, actions: seq<Action>): World
    decreases |actions|
  {
    if |actions| == 0 then w else Run(Step(w, actions[0]), actions[1..])
  }

  function NewClient(retry: RetryConfig): Client {
    Client(Discovering(0), true, 1, None, retry, false, false)
  }

  /**
    In every run of a new client: the timers of a lease are in order, the last event given out describes
    the current state unless a change is pending, and a request phase sends at most its retries.
   */
  lemma {:induction false} RunInv(w: World, actions: seq<Action>)
    requires WorldInv(w)
    ensures WorldInv(Run(w, actions))
    decreases |actions|
  {
    if |actions| > 0 {
      StepInv(w, actions[0]);
      RunInv(Step(w, actions[0]), actions[1..]);
    }
  }

  lemma NewClientInv(retry: RetryConfig)
    ensures WorldInv(World(NewClient(retry), None, 0, 0))
  {
  }

  /** The end of a lease moves only when an ACK arrives. */
  lemma LeaseMovesOnlyOnAck(w: World, a: Action)
    requires w.c.state.Renewing? && Step(w, a).c.state.Renewing?
    requires Step(w, a).c.state.expiresAt != w.c.state.expiresAt || Step(w, a).c.state.config != w.c.state.config
    ensures a.Receive? && a.m.kind == Ack && Relevant(w.c, a.m)
    ensures Step(w, a).c.state.config.server == w.c.state.config.server
  {
  }

  // ----- what an ACK grants

  /** The mask has `n` leading ones and nothing else. */
  ghost predicate MaskOf(mask: nat, n: nat) {
    n <= 32 && mask + Shl(1, 32 - n) == 0x1_0000_0000
  }

  lemma {:induction false} PrefixLenExact(mask: nat, n: nat)
    requires n <= 32
    ensures PrefixLen(mask, n).Some? ==> MaskOf(mask, PrefixLen(mask, n).value)
    ensures PrefixLen(mask, n).None? ==> forall k: nat :: k <= n ==> !MaskOf(mask, k)
    decreases n
  {
    ShlPositive(32 - n);
    if n > 0 {
      PrefixLenExact(mask, n - 1);
    }
  }

  lemma ShlPositive(n: nat)
    requires n <= 32
    ensures 0 < Shl(1, n) <= 0x1_0000_0000
  {
    ShlMonotone(1, 1, n);
    ShlMonotoneShift(1, n, 32);
    ShlSplit(1, 10, 22);
    ShlSplit(1024, 10, 12);
    ShlSplit(1024 * 1024, 10, 2);
    ShlTen(1);
    ShlTen(1024);
    ShlTen(1024 * 1024);
  }

  /** An address that a single host can have: not the broadcast address, not zero, and not in 224.0.0.0/4. */
  predicate OfHost(a: nat) {
    a != 0xffff_ffff && a != 0 && !(0xe000_0000 <= a <= 0xefff_ffff)
  }

  /** How many of the first `n` addresses are those of hosts. */
  function Hosts(addrs: seq<nat>, n: nat): nat
    requires n <= |addrs|
  {
    if n == 0 then 0 else Hosts(addrs, n - 1) + (if OfHost(addrs[n - 1]) then 1 else 0)
  }

  /** The first three of the addresses that are those of hosts, in the order in which they came. */
  ghost predicate FirstHosts(addrs: seq<nat>, servers: seq<nat>) {
    && |servers| == (if Hosts(addrs, |addrs|) < 3 then Hosts(addrs, |addrs|) else 3)
    && forall i :: 0 <= i < |addrs| && OfHost(addrs[i]) && Hosts(addrs, i) < |servers| ==>
         servers[Hosts(addrs, i)] == addrs[i]
  }

  lemma {:induction false} HostsShift(addrs: seq<nat>, n: nat)
    requires 0 < |addrs| && n + 1 <= |addrs|
    ensures Hosts(addrs, n + 1) == (if OfHost(addrs[0]) then 1 else 0) + Hosts(addrs[1..], n)
    decreases n
  {
    if n > 0 {
      HostsShift(addrs, n - 1);
    }
  }

  lemma {:induction false} HostsGrow(addrs: seq<nat>, i: nat, n: nat)
    requires i <= n <= |addrs|
    ensures Hosts(addrs, i) <= Hosts(addrs, n) && (i < n && OfHost(addrs[i]) ==> Hosts(addrs, i) < Hosts(addrs, n))
    decreases n - i
  {
    if i < n {
      HostsGrow(addrs, i, n - 1);
    }
  }

  lemma {:induction false} UnicastsAreHosts(addrs: seq<nat>)
    ensures |Unicasts(addrs)| == Hosts(addrs, |addrs|)
    ensures forall i :: 0 <= i < |addrs| && OfHost(addrs[i]) ==>
              Hosts(addrs, i) < |Unicasts(addrs)| && Unicasts(addrs)[Hosts(addrs, i)] == addrs[i]
    decreases |addrs|
  {
    if |addrs| > 0 {
      UnicastsAreHosts(addrs[1..]);
      HostsShift(addrs, |addrs| - 1);
      forall i | 0 <= i < |addrs| && OfHost(addrs[i])
        ensures Hosts(addrs, i) < |Unicasts(addrs)| && Unicasts(addrs)[Hosts(addrs, i)] == addrs[i]
      {
        if i > 0 {
          HostsShift(addrs, i - 1);
          assert addrs[1..][i - 1] == addrs[i];
        }
      }
    }
  }

  lemma ServersKept(addrs: seq<nat>)
    ensures FirstHosts(addrs, Take(Unicasts(addrs), MAX_DNS_SERVERS))
  {
    UnicastsAreHosts(addrs);
  }

  /** An ACK can be used when it carries a mask of leading ones and an address for the client. */
  ghost predicate Usable(m: Message) {
    m.subnetMask.Some? && (exists n: nat :: MaskOf(m.subnetMask.value, n)) && OfHost(m.yourIp)
  }

  /** The lease in microseconds: what the server grants, two minutes if it does not say, at most what is allowed. */
  ghost predicate LeaseIs(m: Message, maxLease: Option<nat>, lease: int) {
    var granted := if m.lease.Some? then 1_000_000 * m.lease.value else 120_000_000;
    && lease <= granted && (maxLease.Some? ==> lease <= maxLease.value)
    && (lease == granted || Some(lease) == maxLease)
  }

  /**
    When to renew and when to rebind. Both are the server's if it gives both and they come in order before the
    end of the lease. If it gives only the first, rebinding starts when three quarters of the rest are over; if
    only the second, renewing starts after half the lease but not later than that. Otherwise they are one half and
    seven eighths of the lease.
   */
  ghost predicate TimesAre(m: Message, lease: int, t1: int, t2: int) {
    var r1, r2 := if m.renew.Some? then 1_000_000 * m.renew.value else 0,
                  if m.rebind.Some? then 1_000_000 * m.rebind.value else 0;
    if m.renew.Some? && m.rebind.Some? && r1 < r2 < lease then t1 == r1 && t2 == r2
    else if m.renew.Some? && m.rebind.None? && r1 < lease then
      t1 == r1 && 4 * (t2 - t1) <= 3 * (lease - t1) < 4 * (t2 - t1) + 4
    else if m.renew.None? && m.rebind.Some? && r2 < lease then
      t2 == r2 && t1 <= t2 && 2 * t1 <= lease && (t1 == t2 || lease < 2 * t1 + 2)
    else 2 * t1 <= lease < 2 * t1 + 2 && 8 * t2 <= 7 * lease < 8 * t2 + 8
  }

  /** The state that the ACK `m` leads to, said from the message alone. */
  ghost predicate Grants(now: int, m: Message, maxLease: Option<nat>, server: ServerInfo, s: ClientState) {
    && s.Renewing? && !s.rebinding
    && s.config.server == server && s.config.address == m.yourIp && s.config.router == m.router
    && m.subnetMask.Some? && MaskOf(m.subnetMask.value, s.config.prefixLen)
    && FirstHosts(m.dnsServers, s.config.dnsServers)
    && LeaseIs(m, maxLease, s.expiresAt - now)
    && TimesAre(m, s.expiresAt - now, s.renewAt - now, s.rebindAt - now)
  }

  lemma AckUsable(now: int, m: Message, maxLease: Option<nat>, server: ServerInfo)
    ensures ParseAck(now, m, maxLease, server).Some? <==> Usable(m)
  {
    if m.subnetMask.Some? {
      MaskIsPrefix(m.subnetMask.value);
    }
  }

  lemma AckGrants(now: int, m: Message, maxLease: Option<nat>, server: ServerInfo)
    requires ParseAck(now, m, maxLease, server).Some?
    ensures Grants(now, m, maxLease, server, ParseAck(now, m, maxLease, server).value)
  {
    MaskIsPrefix(m.subnetMask.value);
    ServersKept(m.dnsServers);
    var s := ParseAck(now, m, maxLease, server).value;
    var lease := s.expiresAt - now;
    LeaseGiven(now, m, maxLease, server);
    TimesGiven(m, lease);
    var (t1, t2) := RenewTimes(Micros(m.renew), Micros(m.rebind), lease);
    GrantedBy(now, m, maxLease, server, s, lease, t1, t2);
  }

  lemma LeaseGiven(now: int, m: Message, maxLease: Option<nat>, server: ServerInfo)
    requires ParseAck(now, m, maxLease, server).Some?
    ensures var s := ParseAck(now, m, maxLease, server).value;
            var lease := s.expiresAt - now;
            && lease >= 0 && LeaseIs(m, maxLease, lease)
            && var (t1, t2) := RenewTimes(Micros(m.renew), Micros(m.rebind), lease);
               s.renewAt == now + t1 && s.rebindAt == now + t2
  {
    var offered := if m.lease.Some? then 1_000_000 * m.lease.value else DEFAULT_LEASE_DURATION;
    var lease := if maxLease.Some? then Min(offered, maxLease.value) else offered;
    assert (now + lease) - now == lease;
  }

  lemma GrantedBy(now: int, m: Message, maxLease: Option<nat>, server: ServerInfo, s: ClientState, lease: int, t1: int,
                  t2: int)
    requires s.Renewing? && s == Renewing(s.config, now + t1, now + t2, false, now + lease)
    requires s.config.server == server && s.config.address == m.yourIp && s.config.router == m.router
    requires m.subnetMask.Some? && MaskOf(m.subnetMask.value, s.config.prefixLen)
    requires FirstHosts(m.dnsServers, s.config.dnsServers)
    requires LeaseIs(m, maxLease, lease) && TimesAre(m, lease, t1, t2)
    ensures Grants(now, m, maxLease, server, s)
  {
    assert s.expiresAt - now == lease && s.renewAt - now == t1 && s.rebindAt - now == t2;
  }

  lemma MaskIsPrefix(mask: nat)
    ensures PrefixLen(mask, 32).Some? <==> exists n: nat :: MaskOf(mask, n)
    ensures PrefixLen(mask, 32).Some? ==> MaskOf(mask, PrefixLen(mask, 32).value)
  {
    PrefixLenExact(mask, 32);
  }

  lemma TimesGiven(m: Message, lease: nat)
    ensures var (t1, t2) := RenewTimes(Micros(m.renew), Micros(m.rebind), lease); TimesAre(m, lease, t1, t2)
  {
  }

  // ----- what the calls mean for the owner of the client

  /** The server that a client has asked, or is bound by. */
  function ServerOf(s: ClientState): ServerInfo {
    match s
    case Discovering(_) => ServerInfo(0, 0)
    case Requesting(_, _, server, _) => server
    case Renewing(config, _, _, _, _) => config.server
  }

  /** The message is for this client, belongs to its transaction, and says which server it is from. */
  ghost predicate ForClient(c: Client, m: Message) {
    m.forUs && m.transactionId == c.transactionId && m.serverIdentifier.Some?
  }

  /** The message leads to a lease, or ends one. */
  ghost predicate Binds(c: Client, m: Message) {
    ForClient(c, m) && m.kind == Ack && !c.state.Discovering? && Usable(m)
  }

  ghost predicate Rejects(c: Client, m: Message) {
    ForClient(c, m) && m.kind == Nak && !c.state.Discovering? && !c.ignoreNaks
  }

  ghost predicate Offers(c: Client, m: Message) {
    ForClient(c, m) && m.kind == Offer && c.state.Discovering? && OfHost(m.yourIp)
  }

  /**
    A message that is not for this client and transaction changes nothing. An offer makes a discovering client
    ask that server for that address at once. A usable ACK for a request under way binds the address that it
    carries, with the lease and the times that the server grants. A NAK that is not ignored makes the client start
    over. Every other message changes nothing. A change of what the interface should be is always announced.
   */
  ghost predicate ReceiveMeans(c: Client, now: int, m: Message, c': Client) {
    && (Offers(c, m) ==>
          c' == c.(state := Requesting(now, 0, ServerInfo(m.src, m.serverIdentifier.value), m.yourIp)))
    && (Binds(c, m) ==>
          && Grants(now, m, c.maxLease, ServerOf(c.state), c'.state)
          && c' == c.(state := c'.state, configChanged := c'.configChanged)
          && (c'.configChanged <==>
                c.configChanged || c.hasBuffer || CurrentEvent(c') != CurrentEvent(c)))
    && (Rejects(c, m) ==> c' == c.(state := Discovering(0), configChanged := c.configChanged || c.state.Renewing?))
    && (!Offers(c, m) && !Binds(c, m) && !Rejects(c, m) ==> c' == c)
  }

  lemma ReceiveMeaning(c: Client, now: int, m: Message)
    requires TimersOk(c.state)
    ensures TimersOk(Process(c, now, m).state) && ReceiveMeans(c, now, m, Process(c, now, m))
  {
    ProcessTimersOk(c, now, m);
    AckUsable(now, m, c.maxLease, ServerOf(c.state));
    if Usable(m) {
      AckGrants(now, m, c.maxLease, ServerOf(c.state));
    }
  }

  /** What the owner can rely on follows. */
  lemma ReceivedInOrder(c: Client, now: int, m: Message, c': Client)
    requires ReceiveMeans(c, now, m, c')
    ensures !ForClient(c, m) ==> c' == c
    ensures CurrentEvent(c') != CurrentEvent(c) ==> c'.configChanged
    ensures c.configChanged ==> c'.configChanged
    ensures c'.state.Requesting? && !c.state.Requesting? ==>
              && c.state.Discovering? && m.kind == Offer && OfHost(m.yourIp) && PollAt(c') == now
              && c'.state.requestedIp == m.yourIp && Some(c'.state.server.identifier) == m.serverIdentifier
    ensures c'.state.Renewing? && c' != c ==>
              && m.kind == Ack && !c.state.Discovering? && OfHost(m.yourIp)
              && c'.state.config.address == m.yourIp && c'.state.config.server == ServerOf(c.state)
              && now <= c'.state.renewAt <= c'.state.rebindAt <= c'.state.expiresAt && !c'.state.rebinding
              && (c.maxLease.Some? ==> c'.state.expiresAt <= now + c.maxLease.value)
              && |c'.state.config.dnsServers| <= MAX_DNS_SERVERS
    ensures c'.state.Discovering? && !c.state.Discovering? ==> m.kind == Nak && !c.ignoreNaks
    ensures c'.transactionId == c.transactionId
  {
  }

  /** A wait of `half`, but at least `least`, and then at most `most`. */
  ghost predicate Waits(d: int, half: int, least: int, most: int) {
    && d <= most && (d == half || d == least || d == most)
    && (d < most ==> d >= half && d >= least) && (d == most ==> half >= most || least >= most)
  }

  /** The wait before the next REQUEST of a request phase: doubled on every second try. */
  ghost predicate Doubles(r: RetryConfig, retry: nat, wait: int) {
    retry < 128 && Shl(r.initialRequestTimeout, retry / 2) < 0x8000_0000_0000_0000 ==>
      wait == Shl(r.initialRequestTimeout, retry / 2)
  }

  /** A discovering client broadcasts a DISCOVER, and again when its timeout is over. */
  ghost predicate Discovers(c: Client, now: int, emit: bool, xid: nat, c': Client, out: Option<Outgoing>) {
    c.state.Discovering? ==>
      if now < c.state.retryAt || !emit then c' == c && out.None?
      else
        && c' == c.(state := Discovering(now + c.retry.discoverTimeout), transactionId := xid)
        && out == Some(Outgoing(Discover, 0, 0xffff_ffff, xid, 0, None, None))
  }

  /** A requesting client broadcasts a REQUEST to the server it has chosen, until its tries are used up. */
  ghost predicate Requests(c: Client, now: int, emit: bool, xid: nat, c': Client, out: Option<Outgoing>) {
    c.state.Requesting? ==>
      var s := c.state;
      if now < s.retryAt then c' == c && out.None?
      else if s.retry >= c.retry.requestRetries then c' == c.(state := Discovering(0)) && out.None?
      else if !emit then c' == c && out.None?
      else
        && c'.state.Requesting? && Doubles(c.retry, s.retry, c'.state.retryAt - now)
        && c' == c.(state := s.(retryAt := c'.state.retryAt, retry := s.retry + 1), transactionId := xid)
        && out == Some(Outgoing(Request, 0, 0xffff_ffff, xid, 0, Some(s.requestedIp),
                                Some(s.server.identifier)))
  }

  /**
    A bound client whose lease is over starts over. Until T1, and after a rebinding attempt until the next, it is
    quiet. From T1 on it asks its server, and again after half of the time to T2; from T2 on it asks everyone,
    and again after half of the time to the end of the lease; within the limits that are configured.
   */
  ghost predicate Renews(c: Client, now: int, emit: bool, xid: nat, c': Client, out: Option<Outgoing>) {
    c.state.Renewing? ==>
      var s := c.state;
      if now >= s.expiresAt then c' == c.(state := Discovering(0), configChanged := true) && out.None?
      else if now < s.renewAt || (s.rebinding && now < s.rebindAt) then c' == c && out.None?
      else
        var everyone := s.rebinding || now >= s.rebindAt;
        && c'.state.Renewing?
        && if !emit then c' == c.(state := s.(rebinding := everyone)) && out.None?
           else
             && out == Some(Outgoing(Request, s.config.address,
                                     if everyone then 0xffff_ffff else s.config.server.address,
                                     xid, s.config.address, None, None))
             && c'.state == s.(rebinding := everyone, renewAt := c'.state.renewAt, rebindAt := c'.state.rebindAt)
             && c' == c.(state := c'.state, transactionId := xid)
             && NextRenewal(c.retry, now, everyone, s, c'.state)
  }

  ghost predicate NextRenewal(r: RetryConfig, now: int, everyone: bool, s: ClientState, s': ClientState)
    requires s.Renewing? && s'.Renewing?
  {
    if everyone then
      s'.renewAt == s.renewAt && Waits(s'.rebindAt - now, (s.expiresAt - now) / 2, r.minRenewTimeout, r.maxRenewTimeout)
    else
      var left := s.rebindAt - now;
      && s'.rebindAt == s.rebindAt
      && Waits(s'.renewAt - now, left / 2, r.minRenewTimeout,
               if left < r.maxRenewTimeout then left else r.maxRenewTimeout)
  }

  /**
    Before the deadline nothing happens. From it on, a message goes out or the client starts over. A bound
    client sends from its own address, to its server until T2 and to everyone from then on, and never after
    its lease has ended.
   */
  ghost predicate TransmitMeans(c: Client, now: int, emit: bool, xid: nat, c': Client, out: Option<Outgoing>) {
    && (now < PollAt(c) ==> c' == c && out.None?)
    && (now >= PollAt(c) && emit ==> out.Some? || (c'.state == Discovering(0) && !c.state.Discovering?))
    && (!emit ==> out.None?)
    && (out.Some? ==>
          && out.value.transactionId == xid == c'.transactionId
          && (out.value.kind == Discover <==> c.state.Discovering?)
          && (c.state.Requesting? ==>
                out.value.requestedIp == Some(c.state.requestedIp) && out.value.dst == 0xffff_ffff)
          && (c.state.Renewing? ==>
                && now < c.state.expiresAt && out.value.src == c.state.config.address && out.value.requestedIp.None?
                && (now < c.state.rebindAt && !c.state.rebinding ==> out.value.dst == c.state.config.server.address)
                && (now >= c.state.rebindAt ==> out.value.dst == 0xffff_ffff))
          && CurrentEvent(c') == CurrentEvent(c))
    && (CurrentEvent(c') != CurrentEvent(c) ==> c'.configChanged)
    && (c.state.Renewing? && c'.state.Renewing? ==>
          c'.state.expiresAt == c.state.expiresAt && c'.state.config == c.state.config)
    && Discovers(c, now, emit, xid, c', out) && Requests(c, now, emit, xid, c', out)
    && Renews(c, now, emit, xid, c', out)
  }

  lemma DiscoverMeaning(c: Client, now: int, emit: bool, xid: nat)
    ensures Discovers(c, now, emit, xid, Dispatch(c, now, emit, xid).0, Dispatch(c, now, emit, xid).1)
  {
  }

  lemma RequestMeaning(c: Client, now: int, emit: bool, xid: nat)
    ensures Requests(c, now, emit, xid, Dispatch(c, now, emit, xid).0, Dispatch(c, now, emit, xid).1)
  {
    if c.state.Requesting? {
      if c.state.retry < 128 && Shl(c.retry.initialRequestTimeout, c.state.retry / 2) < WORD / 2 {
        BackoffFits(c.retry, c.state.retry);
      }
    }
  }

  lemma RenewMeaning(c: Client, now: int, emit: bool, xid: nat)
    ensures Renews(c, now, emit, xid, Dispatch(c, now, emit, xid).0, Dispatch(c, now, emit, xid).1)
  {
  }

  lemma TransmitMeaning(c: Client, now: int, emit: bool, xid: nat)
    requires TimersOk(c.state)
    ensures TimersOk(Dispatch(c, now, emit, xid).0.state)
    ensures TransmitMeans(c, now, emit, xid, Dispatch(c, now, emit, xid).0, Dispatch(c, now, emit, xid).1)
  {
    DispatchTimersOk(c, now, emit, xid);
    TransmitEvent(c, now, emit, xid);
    DiscoverMeaning(c, now, emit, xid);
    RequestMeaning(c, now, emit, xid);
    RenewMeaning(c, now, emit, xid);
  }

  // ----- the object

  class Socket {
    var state: ClientState
    var changed: bool
    var transactionId: nat
    var maxLease: Option<nat>
    var retryConfig: RetryConfig
    var ignoreNaks: bool
    var hasBuffer: bool

    function View(): Client
      reads this
    {
      Client(state, changed, transactionId, maxLease, retryConfig, ignoreNaks, hasBuffer)
    }

    ghost predicate Valid()
      reads this
    {
      TimersOk(state)
    }

    constructor (retryConfig: RetryConfig)
      ensures Valid() && View() == NewClient(retryConfig)
    {
      state, changed, transactionId := Discovering(0), true, 1;
      maxLease, this.retryConfig, ignoreNaks, hasBuffer := None, retryConfig, false, false;
    }

    method Restart()
      modifies this
      ensures View() == ResetClient(old(View()))
    {
      if state.Renewing? {
        changed := true;
      }
      state := Discovering(0);
    }

    /** A message arrives. */
    method Receive(now: int, m: Message)
      requires Valid()
      modifies this
      ensures Valid() && View() == Process(old(View()), now, m)
      ensures ReceiveMeans(old(View()), now, m, View())
    {
      ReceiveMeaning(View(), now, m);
      TakeMessage(now, m);
    }

    method TakeMessage(now: int, m: Message)
      modifies this
      ensures View() == Process(old(View()), now, m)
    {
      if !m.forUs || m.transactionId != transactionId || m.serverIdentifier.None? {
        return;
      }
      match (state, m.kind) {
        case (Discovering(_), Offer) =>
          if IsUnicast(m.yourIp) {
            state := Requesting(now, 0, ServerInfo(m.src, m.serverIdentifier.value), m.yourIp);
          }
        case (Requesting(_, _, server, _), Ack) =>
          var lease := ParseAck(now, m, maxLease, server);
          if lease.Some? {
            state := lease.value;
            changed := true;
          }
        case (Renewing(config, _, _, _, _), Ack) =>
          var lease := ParseAck(now, m, maxLease, config.server);
          if lease.Some? {
            state := lease.value;
            if state.config != config || hasBuffer {
              changed := true;
            }
          }
        case (Requesting(_, _, _, _), Nak) =>
          if !ignoreNaks {
            Restart();
          }
        case (Renewing(_, _, _, _, _), Nak) =>
          if !ignoreNaks {
            Restart();
          }
        case _ =>
      }
    }

    /** Send what is due; `emit` says whether the device takes it. */
    method Transmit(now: int, emit: bool, xid: nat) returns (out: Option<Outgoing>)
      requires Valid()
      modifies this
      ensures Valid() && (View(), out) == Dispatch(old(View()), now, emit, xid)
      ensures TransmitMeans(old(View()), now, emit, xid, View(), out)
    {
      TransmitMeaning(View(), now, emit, xid);
      out := SendDue(now, emit, xid);
    }

    method SendDue(now: int, emit: bool, xid: nat) returns (out: Option<Outgoing>)
      modifies this
      ensures (View(), out) == Dispatch(old(View()), now, emit, xid)
    {
      out := None;
      match state {
        case Discovering(retryAt) =>
          if now < retryAt || !emit {
            return;
          }
          out := Some(Outgoing(Discover, UNSPECIFIED, BROADCAST, xid, UNSPECIFIED, None, None));
          state := Discovering(now + retryConfig.discoverTimeout);
        case Requesting(retryAt, retry, server, ip) =>
          if now < retryAt {
            return;
          }
          if retry >= retryConfig.requestRetries {
            Restart();
            return;
          }
          if !emit {
            return;
          }
          out := Some(Outgoing(Request, UNSPECIFIED, BROADCAST, xid, UNSPECIFIED, Some(ip), Some(server.identifier)));
          state := state.(retryAt := now + Backoff(retryConfig, retry), retry := retry + 1);
        case Renewing(config, renewAt, rebindAt, rebinding, expiresAt) =>
          if expiresAt <= now {
            Restart();
            return;
          }
          if now < renewAt || (rebinding && now < rebindAt) {
            return;
          }
          state := state.(rebinding := rebinding || now >= rebindAt);
          if !emit {
            return;
          }
          var dst := if state.rebinding then BROADCAST else config.server.address;
          out := Some(Outgoing(Request, config.address, dst, xid, config.address, None, None));
          if state.rebinding {
            state := state.(rebindAt := now + RebindDelay(retryConfig, Left(expiresAt, now)));
          } else {
            state := state.(renewAt := now + RenewDelay(retryConfig, Left(rebindAt, now)));
          }
      }
      transactionId := xid;
    }

    /** The change of configuration that is pending, if any. */
    method Ask() returns (e: Option<Event>)
      modifies this
      ensures (View(), e) == Poll(old(View()))
      ensures !changed && Poll(View()).1.None?
      ensures e.Some? <==> old(changed)
      ensures e.Some? ==> e.value == CurrentEvent(View())
      ensures e.Some? ==> e.value == if state.Renewing? then Configured(state.config) else Deconfigured
    {
      if !changed {
        return None;
      }
      changed := false;
      e := Some(if state.Renewing? then Configured(state.config) else Deconfigured);
    }

    method Deadline() returns (at: int)
      requires Valid()
      ensures at == PollAt(View())
      ensures forall now, xid :: now < at <==> Dispatch(View(), now, true, xid) == (View(), None)
    {
      match state
      case Discovering(retryAt) => at := retryAt;
      case Requesting(retryAt, _, _, _) => at := retryAt;
      case Renewing(_, renewAt, rebindAt, rebinding, expiresAt) =>
        at := if rebinding then rebindAt else Earlier(renewAt, rebindAt);
        at := Earlier(at, expiresAt);
    }
  }
}
