/** External access: an update is checked, published and then saved; a later sync
    publishes again from what was saved. */
module Access {
  import opened Helpers
  import opened UserConfig

  const WEB_ACCESS_PORT := 443
  const WEB_PROTOCOL := "https"

  datatype Request = Request(
    relayEnabled: bool,
    ipv4: Option<string>,
    ipv4Enabled: bool,
    ipv4Public: bool,
    accessPort: Option<int>,
    ipv6Enabled: bool)
  {
    predicate Ipv4Manual() { !relayEnabled && ipv4Enabled }

    predicate Ipv4Active() { relayEnabled || ipv4Enabled }

    predicate Ipv4PublicDirect() { ipv4Public && !relayEnabled }
  }

  /** What the network and the device answer; `None` is an error or no value. */
  datatype Answers = Answers(
    localIpv4: Option<string>,
    publicIpv4: Option<string>,
    ipv6: Option<string>,
    version: Option<string>,
    token: Option<string>,
    mailRelay: bool,
    dkimKey: Option<string>)

  /** Which outside calls of one operation succeed. */
  datatype Io = Io(relayBefore: bool, ipv4Reachable: bool, ipv6Reachable: bool, accepted: bool, relayAfter: bool)

  datatype Record = Record(
    token: string,
    platformVersion: string,
    webProtocol: string,
    webPort: Option<int>,
    webLocalPort: int,
    relay: bool,
    mailRelay: bool,
    ipv4Enabled: bool,
    ipv6Enabled: bool,
    localIp: Option<string>,
    ip: Option<string>,
    mapLocalAddress: bool,
    ipv6: Option<string>,
    dkimKey: Option<string>)

  datatype Effect = RelayApplied(enabled: bool) | Probed(ip: string, port: int) | Posted(record: Record) | Triggered

  // ----- the published record -------------------------------------------------

  /** The arguments of a publication. */
  datatype Args = Args(relay: bool, ipv4: Option<string>, port: Option<int>, ipv4Enabled: bool, ipv4Public: bool, ipv6Enabled: bool)

  /** The address to publish: the given one, or the one the network sees. */
  function PublicAddress(a: Args, net: Answers): Option<string> {
    if a.ipv4 != None then a.ipv4 else net.publicIpv4
  }

  function RecordFor(a: Args, net: Answers): Option<Record> {
    if net.version == None || net.token == None then None
    else if a.ipv4Enabled && (net.localIpv4 == None || (a.ipv4Public && PublicAddress(a, net) == None)) then None
    else Some(Record(
      net.token.value, net.version.value, WEB_PROTOCOL, a.port, WEB_ACCESS_PORT, a.relay, net.mailRelay, a.ipv4Enabled, a.ipv6Enabled,
      if a.ipv4Enabled then net.localIpv4 else None,
      if a.ipv4Enabled && a.ipv4Public then PublicAddress(a, net) else None,
      a.ipv4Enabled && !a.ipv4Public,
      if a.ipv6Enabled then net.ipv6 else None,
      net.dkimKey))
  }

  /** What is published: the local address if IPv4 is enabled, and if it is public also
      the given address or, failing that, the one that the network sees. */
  predicate Tells(a: Args, net: Answers, r: Record) {
    && net.token == Some(r.token) && net.version == Some(r.platformVersion) && r.webProtocol == "https"
    && r.webPort == a.port && r.webLocalPort == 443
    && r.relay == a.relay && r.mailRelay == net.mailRelay && r.ipv4Enabled == a.ipv4Enabled && r.ipv6Enabled == a.ipv6Enabled
    && (r.localIp.Some? <==> a.ipv4Enabled) && (r.localIp.Some? ==> r.localIp == net.localIpv4)
    && (r.ip.Some? <==> a.ipv4Enabled && a.ipv4Public)
    && (r.ip.Some? && a.ipv4.Some? ==> r.ip == a.ipv4) && (r.ip.Some? && a.ipv4 == None ==> r.ip == net.publicIpv4)
    && (r.mapLocalAddress <==> r.localIp.Some? && r.ip == None)
    && (a.ipv6Enabled ==> r.ipv6 == net.ipv6) && (!a.ipv6Enabled ==> r.ipv6 == None) && r.dkimKey == net.dkimKey
  }

  /** An answer that the record needs is missing. */
  predicate Missing(a: Args, net: Answers) {
    || net.version == None || net.token == None
    || (a.ipv4Enabled && net.localIpv4 == None)
    || (a.ipv4Enabled && a.ipv4Public && a.ipv4 == None && net.publicIpv4 == None)
  }

  /** `Update` of the redirect service, up to posting. */
  method BuildRecord(a: Args, net: Answers) returns (record: Option<Record>)
    ensures record == RecordFor(a, net)
    ensures record == None <==> Missing(a, net)
    ensures record.Some? ==> Tells(a, net, record.value)
  {
    if net.version == None {
      return None;
    }
    if net.token == None {
      return None;
    }
    var request := Record(net.token.value, net.version.value, WEB_PROTOCOL, a.port, WEB_ACCESS_PORT, a.relay, net.mailRelay,
                          a.ipv4Enabled, a.ipv6Enabled, None, None, false, None, None);
    if a.ipv4Enabled {
      if net.localIpv4 == None {
        return None;
      }
      request := request.(localIp := net.localIpv4);
      if a.ipv4Public {
        var ipv4 := a.ipv4;
        if ipv4 == None {
          ipv4 := net.publicIpv4;
          if ipv4 == None {
            return None;
          }
        }
        request := request.(ip := ipv4);
      }
      request := request.(mapLocalAddress := !a.ipv4Public);
    }
    if a.ipv6Enabled {
      request := request.(ipv6 := net.ipv6);
    }
    if net.dkimKey.Some? {
      request := request.(dkimKey := net.dkimKey);
    }
    return Some(request);
  }

  // ----- update and sync ------------------------------------------------------

  /** The address that is kept: one given for manual access that is IPv4. */
  function AddressToSave(r: Request, isIpv4: string -> bool): Option<string> {
    if r.Ipv4Manual() && r.ipv4.Some? && isIpv4(r.ipv4.value) then r.ipv4 else None
  }

  function AddressToPublish(r: Request, net: Answers, isIpv4: string -> bool): Option<string> {
    if AddressToSave(r, isIpv4).Some? then AddressToSave(r, isIpv4)
    else if r.Ipv4Manual() && r.ipv4Public then net.publicIpv4 else None
  }

  function UpdateArgs(r: Request, net: Answers, isIpv4: string -> bool): Args {
    Args(r.relayEnabled, AddressToPublish(r, net, isIpv4), r.accessPort, r.Ipv4Active(), r.Ipv4PublicDirect(), r.ipv6Enabled)
  }

  function SyncArgs(t: Table): Args {
    Args(IsRelayEnabled(t), GetPublicIp(t), GetPublicPort(t), IsIpv4Enabled(t), IsIpv4Public(t), IsIpv6Enabled(t))
  }

  function Saved(t: Table, r: Request, ip: Option<string>): Table {
    var flags := t[RELAY_ENABLED := FromBool(r.relayEnabled)][IPV4_ENABLED := FromBool(r.ipv4Enabled)][IPV4_PUBLIC := FromBool(r.ipv4Public)];
    var address := Stored(flags, PUBLIC_IP, ip)[IPV6_ENABLED := FromBool(r.ipv6Enabled)];
    Stored(address, PUBLIC_PORT, if r.accessPort == None then None else Some(FormatInt(r.accessPort.value)))
  }

  /** Every check before the first setter passes. */
  predicate Reachable(r: Request, net: Answers, isIpv4: string -> bool, io: Io) {
    && Ipv4Reachable(r, net, isIpv4, io)
    && (r.ipv6Enabled ==> net.ipv6.Some? && io.ipv6Reachable)
  }

  predicate Accepted(t: Table, r: Request, net: Answers, isIpv4: string -> bool, io: Io) {
    && io.relayBefore
    && Reachable(r, net, isIpv4, io)
    && (IsRedirectEnabled(t) ==> RecordFor(UpdateArgs(r, net, isIpv4), net).Some? && io.accepted)
  }

  predicate Ipv4Reachable(r: Request, net: Answers, isIpv4: string -> bool, io: Io) {
    r.Ipv4Manual() && r.ipv4Public ==> AddressToPublish(r, net, isIpv4).Some? && io.ipv4Reachable
  }

  function Ipv4Probe(r: Request, net: Answers, isIpv4: string -> bool): seq<Effect> {
    if r.Ipv4Manual() && r.ipv4Public && AddressToPublish(r, net, isIpv4).Some?
    then [Probed(AddressToPublish(r, net, isIpv4).value, if r.accessPort == None then WEB_ACCESS_PORT else r.accessPort.value)]
    else []
  }

  function Ipv6Probe(r: Request, net: Answers, isIpv4: string -> bool, io: Io): seq<Effect> {
    if Ipv4Reachable(r, net, isIpv4, io) && r.ipv6Enabled && net.ipv6.Some? then [Probed(net.ipv6.value, WEB_ACCESS_PORT)] else []
  }

  function Post(t: Table, a: Args, net: Answers): seq<Effect> {
    if IsRedirectEnabled(t) && RecordFor(a, net).Some? then [Posted(RecordFor(a, net).value)] else []
  }

  /** The outside calls of an update, in order, as far as it gets. */
  function EffectsAfter(e: seq<Effect>, t: Table, r: Request, net: Answers, isIpv4: string -> bool, io: Io): seq<Effect> {
    var applied := e + [RelayApplied(r.relayEnabled)];
    if !io.relayBefore then applied
    else
      var probed := applied + Ipv4Probe(r, net, isIpv4) + Ipv6Probe(r, net, isIpv4, io);
      if !Reachable(r, net, isIpv4, io) then probed
      else
        var posted := probed + Post(t, UpdateArgs(r, net, isIpv4), net);
        if !Accepted(t, r, net, isIpv4, io) then posted
        else posted + [RelayApplied(r.relayEnabled)] + if io.relayAfter then [Triggered] else []
  }

  /** The record says what the request asked for. */
  predicate TellsRequest(r: Request, net: Answers, isIpv4: string -> bool, record: Record) {
    && record.relay == r.relayEnabled && record.webPort == r.accessPort && record.ipv6Enabled == r.ipv6Enabled
    && (record.localIp.Some? <==> r.relayEnabled || r.ipv4Enabled) && (record.localIp.Some? ==> record.localIp == net.localIpv4)
    && (record.ip.Some? <==> !r.relayEnabled && r.ipv4Enabled && r.ipv4Public)
    && (record.ip.Some? ==> record.ip == if r.ipv4.Some? && isIpv4(r.ipv4.value) then r.ipv4 else net.publicIpv4)
    && (record.mapLocalAddress <==> record.localIp.Some? && record.ip == None)
  }

  /** A public address is posted only after it has been probed, at the port that is
      posted with it or else at the usual one. */
  predicate PostsWhatItProbed(r: Request, effects: seq<Effect>, start: nat, k: nat)
    requires k < |effects| && effects[k].Posted?
  {
    var record := effects[k].record;
    record.ip.Some? ==>
      && start + 1 < k && effects[start + 1].Probed? && record.ip == Some(effects[start + 1].ip)
      && (record.webPort.Some? ==> record.webPort == Some(effects[start + 1].port))
      && (record.webPort == None ==> effects[start + 1].port == 443)
  }

  /** The settings that an accepted update leaves: those of the request, and the given
      address if it is used. */
  predicate Keeps(r: Request, isIpv4: string -> bool, t: Table) {
    && IsRelayEnabled(t) == r.relayEnabled && IsIpv4Enabled(t) == r.ipv4Enabled && IsIpv4Public(t) == r.ipv4Public
    && IsIpv6Enabled(t) == r.ipv6Enabled
    && (r.accessPort == None || Fits(r.accessPort.value, 64) ==> GetPublicPort(t) == r.accessPort)
    && GetPublicIp(t) == if !r.relayEnabled && r.ipv4Enabled && r.ipv4.Some? && isIpv4(r.ipv4.value) then r.ipv4 else None
  }

  /** Why an update is turned down: the relay, a public address that is missing or not
      reachable, an IPv6 address likewise, or, where the redirect service is in use,
      a record that cannot be built or is not accepted. */
  predicate TurnedDown(t: Table, r: Request, net: Answers, isIpv4: string -> bool, io: Io) {
    || !io.relayBefore
    || (!r.relayEnabled && r.ipv4Enabled && r.ipv4Public && (!io.ipv4Reachable || ((r.ipv4 == None || !isIpv4(r.ipv4.value)) && net.publicIpv4 == None)))
    || (r.ipv6Enabled && (net.ipv6 == None || !io.ipv6Reachable))
    || (IsRedirectEnabled(t) && (!io.accepted || net.version == None || net.token == None || ((r.relayEnabled || r.ipv4Enabled) && net.localIpv4 == None)))
  }

  lemma AcceptedUnlessTurnedDown(t: Table, r: Request, net: Answers, isIpv4: string -> bool, io: Io)
    ensures TurnedDown(t, r, net, isIpv4, io) <==> !Accepted(t, r, net, isIpv4, io)
  {
  }

  lemma RecordTells(a: Args, net: Answers)
    ensures RecordFor(a, net).Some? ==> Tells(a, net, RecordFor(a, net).value)
  {
  }

  /** Every record posted from `start` on says what the request asked for. */
  predicate AllTell(r: Request, net: Answers, isIpv4: string -> bool, effects: seq<Effect>, start: nat) {
    forall k :: start <= k < |effects| && effects[k].Posted? ==>
      TellsRequest(r, net, isIpv4, effects[k].record) && PostsWhatItProbed(r, effects, start, k)
  }

  lemma UpdateTells(e: seq<Effect>, t: Table, r: Request, net: Answers, isIpv4: string -> bool, io: Io)
    ensures var effects := EffectsAfter(e, t, r, net, isIpv4, io); e <= effects && AllTell(r, net, isIpv4, effects, |e|)
  {
    var effects := EffectsAfter(e, t, r, net, isIpv4, io);
    forall k | |e| <= k < |effects| && effects[k].Posted?
      ensures TellsRequest(r, net, isIpv4, effects[k].record) && PostsWhatItProbed(r, effects, |e|, k)
    {
      var probes := Ipv4Probe(r, net, isIpv4);
      PostedIsFor(e, t, r, net, isIpv4, io, k);
      RecordTells(UpdateArgs(r, net, isIpv4), net);
      RecordTellsRequest(r, net, isIpv4, effects[k].record);
      if probes != [] {
        assert effects[|e| + 1] == probes[0];
      }
    }
  }

  lemma TriggeredLast(e: seq<Effect>, t: Table, r: Request, net: Answers, isIpv4: string -> bool, io: Io)
    ensures var effects := EffectsAfter(e, t, r, net, isIpv4, io);
            |effects| > |e| && (effects[|effects| - 1] == Triggered <==> Accepted(t, r, net, isIpv4, io) && io.relayAfter)
  {
  }

  lemma PostedIsFor(e: seq<Effect>, t: Table, r: Request, net: Answers, isIpv4: string -> bool, io: Io, k: nat)
    requires |e| <= k < |EffectsAfter(e, t, r, net, isIpv4, io)| && EffectsAfter(e, t, r, net, isIpv4, io)[k].Posted?
    ensures RecordFor(UpdateArgs(r, net, isIpv4), net) == Some(EffectsAfter(e, t, r, net, isIpv4, io)[k].record)
    ensures k > |e| + |Ipv4Probe(r, net, isIpv4)|
    ensures Ipv4Probe(r, net, isIpv4) != [] ==> EffectsAfter(e, t, r, net, isIpv4, io)[|e| + 1] == Ipv4Probe(r, net, isIpv4)[0]
  {
  }

  lemma RecordTellsRequest(r: Request, net: Answers, isIpv4: string -> bool, record: Record)
    requires Tells(UpdateArgs(r, net, isIpv4), net, record)
    ensures TellsRequest(r, net, isIpv4, record)
  {
  }

  lemma UpdateKeeps(t: Table, r: Request, isIpv4: string -> bool)
    ensures Keeps(r, isIpv4, Saved(t, r, AddressToSave(r, isIpv4)))
  {
    Ipv4ReadsBack(t, r, AddressToSave(r, isIpv4));
    OthersReadBack(t, r, AddressToSave(r, isIpv4));
    if r.accessPort.Some? {
      ParseOfFormat(r.accessPort.value, 64);
    }
  }

  class ExternalAddress {
    const config: UserConfig
    var effects: seq<Effect>

    constructor (config: UserConfig)
      ensures this.config == config && effects == []
    {
      this.config := config;
      effects := [];
    }

    method Update(request: Request, net: Answers, isIpv4: string -> bool, io: Io) returns (ok: bool)
      modifies this, config
      ensures ok <==> Accepted(old(config.db), request, net, isIpv4, io) && io.relayAfter
      ensures config.db == if Accepted(old(config.db), request, net, isIpv4, io) then Saved(old(config.db), request, AddressToSave(request, isIpv4)) else old(config.db)
      ensures effects == EffectsAfter(old(effects), old(config.db), request, net, isIpv4, io)
      ensures old(effects) <= effects && AllTell(request, net, isIpv4, effects, |old(effects)|)
      ensures TurnedDown(old(config.db), request, net, isIpv4, io) ==> !ok && config.db == old(config.db)
      ensures !TurnedDown(old(config.db), request, net, isIpv4, io) ==> Keeps(request, isIpv4, config.db) && ok == io.relayAfter
      ensures ok <==> |effects| > |old(effects)| && effects[|effects| - 1] == Triggered
    {
      AcceptedUnlessTurnedDown(config.db, request, net, isIpv4, io);
      UpdateTells(effects, config.db, request, net, isIpv4, io);
      UpdateKeeps(config.db, request, isIpv4);
      TriggeredLast(effects, config.db, request, net, isIpv4, io);
      ok := Attempt(request, net, isIpv4, io);
    }

    /** The calls of an update. */
    method Attempt(request: Request, net: Answers, isIpv4: string -> bool, io: Io) returns (ok: bool)
      modifies this, config
      ensures ok <==> Accepted(old(config.db), request, net, isIpv4, io) && io.relayAfter
      ensures config.db == if Accepted(old(config.db), request, net, isIpv4, io) then Saved(old(config.db), request, AddressToSave(request, isIpv4)) else old(config.db)
      ensures effects == EffectsAfter(old(effects), old(config.db), request, net, isIpv4, io)
    {
      effects := effects + [RelayApplied(request.relayEnabled)];
      if !io.relayBefore { return false; }
      var passed, ipv4, ipv4ToSave := Check(request, net, isIpv4, io);
      if !passed { return false; }
      var published := Publish(Args(request.relayEnabled, ipv4, request.accessPort, request.Ipv4Active(), request.Ipv4PublicDirect(), request.ipv6Enabled), net, io);
      if !published { return false; }
      Save(request, ipv4ToSave);
      effects := effects + [RelayApplied(request.relayEnabled)];
      if !io.relayAfter { return false; }
      effects := effects + [Triggered];
      return true;
    }

    /** Posts the record when the redirect service is in use. */
    method Publish(a: Args, net: Answers, io: Io) returns (ok: bool)
      modifies this`effects
      ensures ok <==> !IsRedirectEnabled(config.db) || (RecordFor(a, net).Some? && io.accepted)
      ensures effects == old(effects) + Post(config.db, a, net)
    {
      if IsRedirectEnabled(config.db) {
        var record := BuildRecord(a, net);
        if record == None { return false; }
        effects := effects + [Posted(record.value)];
        return io.accepted;
      }
      return true;
    }

    /** Settles the addresses and probes those that must be reachable. */
    method Check(request: Request, net: Answers, isIpv4: string -> bool, io: Io) returns (passed: bool, ipv4: Option<string>, ipv4ToSave: Option<string>)
      modifies this`effects
      ensures passed <==> Reachable(request, net, isIpv4, io)
      ensures passed ==> ipv4 == AddressToPublish(request, net, isIpv4) && ipv4ToSave == AddressToSave(request, isIpv4)
      ensures effects == old(effects) + Ipv4Probe(request, net, isIpv4) + Ipv6Probe(request, net, isIpv4, io)
    {
      ipv4 := request.ipv4;
      ipv4ToSave := ipv4;
      if request.Ipv4Manual() {
        var port := WEB_ACCESS_PORT;
        if request.accessPort.Some? {
          port := request.accessPort.value;
        }
        if ipv4.Some? && !isIpv4(ipv4.value) {
          ipv4 := None;
          ipv4ToSave := None;
        }
        if request.ipv4Public {
          if ipv4 == None {
            ipv4 := net.publicIpv4;
            if ipv4 == None { return false, ipv4, ipv4ToSave; }
          }
          effects := effects + [Probed(ipv4.value, port)];
          if !io.ipv4Reachable { return false, ipv4, ipv4ToSave; }
        }
      } else {
        ipv4 := None;
        ipv4ToSave := None;
      }
      if request.ipv6Enabled {
        if net.ipv6 == None { return false, ipv4, ipv4ToSave; }
        effects := effects + [Probed(net.ipv6.value, WEB_ACCESS_PORT)];
        if !io.ipv6Reachable { return false, ipv4, ipv4ToSave; }
      }
      return true, ipv4, ipv4ToSave;
    }

    method Save(request: Request, ipv4ToSave: Option<string>)
      modifies config
      ensures config.db == Saved(old(config.db), request, ipv4ToSave)
    {
      config.SetBool(RELAY_ENABLED, request.relayEnabled);
      config.SetBool(IPV4_ENABLED, request.ipv4Enabled);
      config.SetBool(IPV4_PUBLIC, request.ipv4Public);
      config.SetPublicIp(ipv4ToSave);
      config.SetBool(IPV6_ENABLED, request.ipv6Enabled);
      config.SetPublicPort(request.accessPort);
    }

    method Sync(net: Answers, io: Io) returns (ok: bool)
      modifies this
      ensures var record := RecordFor(SyncArgs(config.db), net);
              var relay := RelayApplied(IsRelayEnabled(config.db));
              if !IsRedirectEnabled(config.db) then ok == io.relayAfter && effects == old(effects) + [relay]
              else if record == None then !ok && effects == old(effects)
              else if !io.accepted then !ok && effects == old(effects) + [Posted(record.value)]
              else ok == io.relayAfter && effects == old(effects) + [Posted(record.value), relay]
    {
      var published := Publish(SyncArgs(config.db), net, io);
      if !published { return false; }
      effects := effects + [RelayApplied(IsRelayEnabled(config.db))];
      return io.relayAfter;
    }
  }

  // ----- agreement ------------------------------------------------------------

  /** The setters write different keys, so each getter reads back its own. */
  lemma Ipv4ReadsBack(t: Table, r: Request, ip: Option<string>)
    ensures IsIpv4Enabled(Saved(t, r, ip)) == r.ipv4Enabled && IsIpv4Public(Saved(t, r, ip)) == r.ipv4Public
  {
  }

  lemma OthersReadBack(t: Table, r: Request, ip: Option<string>)
    ensures IsRelayEnabled(Saved(t, r, ip)) == r.relayEnabled && IsIpv6Enabled(Saved(t, r, ip)) == r.ipv6Enabled
    ensures IsRedirectEnabled(Saved(t, r, ip)) == IsRedirectEnabled(t)
  {
  }

  lemma AddressReadsBack(t: Table, r: Request, ip: Option<string>)
    requires r.accessPort.Some? ==> Fits(r.accessPort.value, 64)
    ensures GetPublicIp(Saved(t, r, ip)) == ip && GetPublicPort(Saved(t, r, ip)) == r.accessPort
  {
    if r.accessPort.Some? {
      ParseOfFormat(r.accessPort.value, 64);
    }
  }

  lemma SavedReadsBack(t: Table, r: Request, ip: Option<string>)
    requires r.accessPort.Some? ==> Fits(r.accessPort.value, 64)
    ensures SyncArgs(Saved(t, r, ip)) == Args(r.relayEnabled, ip, r.accessPort, r.ipv4Enabled, r.ipv4Public, r.ipv6Enabled)
    ensures IsRedirectEnabled(Saved(t, r, ip)) == IsRedirectEnabled(t)
  {
    Ipv4ReadsBack(t, r, ip);
    OthersReadBack(t, r, ip);
    AddressReadsBack(t, r, ip);
  }

  /** After an accepted update a sync under the same answers posts the record that
      the update posted, unless the relay is on and the kept IPv4 flags are not
      "enabled but not public", which is what the update published in their place. */
  lemma SyncAgreesWithUpdate(t: Table, r: Request, net: Answers, isIpv4: string -> bool, io: Io)
    requires Accepted(t, r, net, isIpv4, io) && IsRedirectEnabled(t)
    requires r.accessPort.Some? ==> Fits(r.accessPort.value, 64)
    ensures var after := Saved(t, r, AddressToSave(r, isIpv4));
            && IsRedirectEnabled(after)
            && (RecordFor(SyncArgs(after), net) == RecordFor(UpdateArgs(r, net, isIpv4), net)
                <==> !r.relayEnabled || (r.ipv4Enabled && !r.ipv4Public))
  {
    SavedReadsBack(t, r, AddressToSave(r, isIpv4));
  }
}
