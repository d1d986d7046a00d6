/**
 * The package state of internal/meshrouter/meshrouter.go: the process-wide
 * `settings` record, which the handlers update in place, and the text frames
 * written on the control connection. Each method is proved to perform the
 * transition Protocol describes.
 */
module MeshRouter {
  import opened Wrappers
  import opened Text
  import opened Session
  import opened Protocol
  import Profiles

  /** Message printed when the relay URL does not parse. */
  const UnparsableUrl: string := "Unable to parse server URL."

  /**
   * The inner loop of handleNodesCommand: one device per record of a group,
   * in order, or the position of the first record that lacks `_id`, `rname`
   * or `icon`.
   */
  method NormaliseRecords(records: seq<NodeRecord>) returns (devices: seq<Device>, failed: Option<nat>)
    ensures failed.None? ==> NormaliseAll(records) == Some(devices)
    ensures failed.Some? ==> failed.value < |records| && Normalise(records[failed.value]).None?
  {
    devices := [];
    for j := 0 to |records|
      invariant NormaliseAll(records[..j]) == Some(devices)
    {
      var d := Normalise(records[j]);
      if d.None? {
        return devices, Some(j);
      }
      NormaliseAllSnoc(records, j);
      devices := devices + [d.value];
    }
    assert records[..|records|] == records;
    failed := None;
  }

  class Router {
    /** The package variable `settings`. */
    var settings: Settings
    /** Text frames written on the control connection, oldest first. */
    var sent: seq<string>

    constructor (init: Settings)
      ensures settings == init && sent == []
    {
      settings := init;
      sent := [];
    }

    /** ApplySettings: the five tunnel parameters are replaced, everything else is kept. */
    method ApplySettings(remoteNodeId: string, remotePort: int, localPort: int, remoteTarget: string, debug: bool)
      modifies this
      ensures settings == Session.ApplySettings(old(settings), remoteNodeId, remotePort, localPort, remoteTarget, debug)
      ensures sent == old(sent)
    {
      settings := settings.(remoteNodeId := remoteNodeId);
      settings := settings.(remotePort := remotePort);
      settings := settings.(localPort := localPort);
      settings := settings.(remoteTarget := remoteTarget);
      settings := settings.(debug := debug);
    }

    /** GetLocalPort: the local port as stored, after StartRouter the one actually bound. */
    function GetLocalPort(): (port: int)
      reads this
      ensures port == settings.localPort
    {
      settings.localPort
    }

    /**
     * StartSocket: takes the credentials and server of the default profile,
     * stores the relay URL, and dials the control URL with the header the
     * session selects. Whether the relay URL parses and how the dial ends are
     * given by the caller; each failure ends the process with status 1.
     */
    method StartSocket(store: Profiles.ProfileStore, urlParses: bool, dialError: Option<string>)
      returns (request: Option<DialRequest>, outcome: Outcome)
      modifies this
      ensures var p := match Profiles.FindIndex(store.profiles, store.defaultProfile)
                       case Some(k) => store.profiles[k]
                       case None => Profiles.ZeroProfile;
        settings == old(settings).(username := p.username, password := p.password, serverUrl := RelayUrl(p.server),
                                   connected := old(settings).connected || outcome == Continue)
      ensures request.Some? <==> urlParses
      ensures request.Some? ==> request.value == ControlRequest(settings)
      ensures outcome == if !urlParses then Exit(1, UnparsableUrl)
                         else if dialError.Some? then Exit(1, "Unable to connect to server: " + dialError.value)
                         else Continue
      ensures sent == old(sent)
    {
      var p := store.GetDefaultProfile();
      settings := settings.(username := p.username, password := p.password, serverUrl := RelayUrl(p.server));
      if !urlParses {
        return None, Exit(1, UnparsableUrl);
      }
      request := Some(ControlRequest(settings));
      if dialError.Some? {
        return request, Exit(1, "Unable to connect to server: " + dialError.value);
      }
      settings := settings.(connected := true);
      outcome := Continue;
    }

    /** handleAuthCookieCommand. */
    method HandleAuthCookie(cookie: Option<string>, rcookie: Option<string>) returns (outcome: Outcome)
      modifies this
      ensures var t := Handle(old(settings), AuthCookie(cookie, rcookie));
        settings == t.settings && sent == old(sent) + t.frames && outcome == t.outcome
    {
      var hadCookie := settings.aCookie != "";
      if cookie.None? {
        return Panic("cookie is not a string");
      }
      settings := settings.(aCookie := cookie.value);
      if rcookie.None? {
        return Panic("rcookie is not a string");
      }
      settings := settings.(rCookie := rcookie.value);
      if !hadCookie {
        settings := settings.(renewTimers := settings.renewTimers + 1);
      }
      outcome := Continue;
    }

    /** handleServerAuthCommand. */
    method HandleServerAuth() returns (outcome: Outcome)
      modifies this
      ensures var t := Handle(old(settings), ServerAuth);
        settings == t.settings && sent == old(sent) + t.frames && outcome == t.outcome
    {
      settings := settings.(serverId := "");
      settings := settings.(serverHttpsHash := settings.meshServerTlsHash);
      settings := settings.(meshServerTlsHash := "");
      sent := sent + [UserAuthFrame(settings)];
      outcome := Continue;
    }

    /**
     * handleNodesCommand: builds the device list group by group and record by
     * record, then replaces the stored list and marks the query answered.
     */
    method HandleNodes(groups: Option<seq<NodeGroup>>) returns (outcome: Outcome)
      modifies this
      ensures var t := Handle(old(settings), Nodes(groups));
        settings == t.settings && sent == old(sent) + t.frames && outcome == t.outcome
    {
      if groups.None? {
        return Panic("nodes is not an object of lists");
      }
      var gs := groups.value;
      var devices: seq<Device> := [];
      for g := 0 to |gs|
        invariant Flatten(gs[..g]) == Some(devices)
        invariant settings == old(settings) && sent == old(sent)
      {
        var group, failed := NormaliseRecords(gs[g].records);
        if failed.Some? {
          FlattenFailsAt(gs, g, failed.value);
          return Panic("a node record lacks _id, rname or icon");
        }
        FlattenSnoc(gs, g, devices, group);
        devices := devices + group;
      }
      assert gs[..|gs|] == gs;
      settings := settings.(devices := devices, deviceQueryState := Idle);
      outcome := Continue;
    }

    /** An armed renewal timer fires and asks for a fresh cookie. */
    method FireRenewal() returns (outcome: Outcome)
      modifies this
      ensures var t := Fire(old(settings));
        settings == t.settings && sent == old(sent) + t.frames && outcome == t.outcome
    {
      if settings.renewTimers > 0 {
        settings := settings.(renewTimers := settings.renewTimers - 1);
        sent := sent + [AuthCookieRequest];
      }
      outcome := Continue;
    }

    /** The body of the reader loop for one event other than a read error. */
    method Dispatch(e: Event) returns (outcome: Outcome)
      requires !e.ReadError?
      modifies this
      ensures var t := Step(old(settings), e);
        settings == t.settings && sent == old(sent) + t.frames && outcome == t.outcome
    {
      if e.RenewalTimer? {
        outcome := FireRenewal();
        return;
      }
      match e.cmd {
        case Malformed =>
          outcome := Continue;
        case Unknown =>
          outcome := Continue;
        case ServerInfo =>
          sent := sent + [AuthCookieRequest];
          outcome := Continue;
        case AuthCookie(cookie, rcookie) =>
          outcome := HandleAuthCookie(cookie, rcookie);
        case ServerAuth =>
          outcome := HandleServerAuth();
        case Close(cause, msg, email2fa, sms2fa, email2faSent) =>
          outcome := CloseOutcome(cause, msg, email2fa, sms2fa, email2faSent);
        case Nodes(groups) =>
          outcome := HandleNodes(groups);
      }
    }

    /** Appending is associative; the reader loop regroups the frames it has sent. */
    static lemma AppendAssoc(a: seq<string>, b: seq<string>, c: seq<string>)
      ensures a + b + c == a + (b + c)
    {
    }

    /**
     * One turn of the reader loop: event `i` of a run from `s0` that has
     * already written `out`. The turn either ends the run, with the stop
     * reason the run gives, or leaves it ready to resume at event `i + 1`.
     */
    method Advance(ghost s0: Settings, events: seq<Event>, untilAnswered: bool, i: nat, ghost out: seq<string>)
      returns (stop: Option<Stop>, ghost frames: seq<string>)
      requires i < |events|
      requires Resumes(s0, events, untilAnswered, i, out, settings)
      modifies this
      ensures sent == old(sent) + frames
      ensures stop.Some? ==> var r0 := Run(s0, events, untilAnswered);
        r0.settings == settings && r0.frames == out + frames && r0.stop == stop.value && r0.consumed == i + 1
      ensures stop.None? ==> Resumes(s0, events, untilAnswered, i + 1, out + frames, settings)
    {
      var e := events[i];
      if e.ReadError? {
        ResumeReadError(s0, events, untilAnswered, i, out, settings);
        assert out + [] == out;
        return Some(ReadEnded(e.normalClose)), [];
      }
      ResumeStep(s0, events, untilAnswered, i, out, settings);
      frames := Step(settings, e).frames;
      var outcome := Dispatch(e);
      if !outcome.Continue? {
        return Some(Terminated(outcome)), frames;
      }
      if untilAnswered && settings.deviceQueryState != Pending {
        return Some(Answered), frames;
      }
      stop := None;
    }

    /**
     * onServerWebSocket: reads and dispatches events until a read fails, a
     * handler ends the process, or the events run out. With `untilAnswered`
     * it also stops once the device query state leaves Pending, the moment a
     * poller in GetDevices returns.
     */
    method Serve(events: seq<Event>, untilAnswered: bool) returns (stop: Stop, consumed: nat)
      modifies this
      ensures var r := Run(old(settings), events, untilAnswered);
        settings == r.settings && sent == old(sent) + r.frames && stop == r.stop && consumed == r.consumed
    {
      ghost var out: seq<string> := [];
      ResumeStart(settings, events, untilAnswered);
      var i := 0;
      while i < |events|
        invariant 0 <= i <= |events|
        invariant sent == old(sent) + out
        invariant Resumes(old(settings), events, untilAnswered, i, out, settings)
      {
        var ended, frames := Advance(old(settings), events, untilAnswered, i, out);
        AppendAssoc(old(sent), out, frames);
        out := out + frames;
        if ended.Some? {
          return ended.value, i + 1;
        }
        i := i + 1;
      }
      ResumeEnd(old(settings), events, untilAnswered, out, settings);
      return Exhausted, |events|;
    }

    /**
     * GetDevices: marks a query pending, sends one `nodes` request, and waits
     * while the reader handles events; it returns the stored list once the
     * query is answered. When the events run out or the reader stops first,
     * the source would wait for ever: the model returns None.
     */
    method GetDevices(events: seq<Event>) returns (devices: Option<seq<Device>>, stop: Stop)
      modifies this
      ensures var r := Run(old(settings).(deviceQueryState := Pending), events, true);
        settings == r.settings && sent == old(sent) + [NodesRequest] + r.frames && stop == r.stop
      ensures devices.Some? <==> stop == Answered
      ensures stop.Terminated? ==> !stop.outcome.Continue?
      ensures devices.Some? ==> devices.value == settings.devices && settings.deviceQueryState == Idle
      ensures devices.Some? ==> AnsweredByNodes(events, Run(old(settings).(deviceQueryState := Pending), events, true))
    {
      settings := settings.(deviceQueryState := Pending);
      sent := sent + [NodesRequest];
      ghost var start := settings;
      var consumed;
      stop, consumed := Serve(events, true);
      AnswerIsLatestNodes(start, events);
      TerminatedEnds(start, events, true);
      if stop == Answered {
        devices := Some(settings.devices);
      } else {
        devices := None;
      }
    }

    /**
     * StartRouter: listens on the stored local port; `listened` is the port
     * the listener reports, or None with the error text when binding fails,
     * which ends the process with status 1. A requested port of 0 lets the
     * system choose, and the chosen port is stored.
     */
    method StartRouter(listened: Option<int>, listenError: string) returns (outcome: Outcome)
      modifies this
      ensures listened.None? ==>
        settings == old(settings) &&
        outcome == Exit(1, "Unable to bind to local TCP port " + IntToDecimal(old(settings).localPort) + ": " + listenError)
      ensures listened.Some? ==> settings == old(settings).(localPort := listened.value) && outcome == Continue
      ensures sent == old(sent)
    {
      if listened.None? {
        return Exit(1, "Unable to bind to local TCP port " + IntToDecimal(settings.localPort) + ": " + listenError);
      }
      settings := settings.(localPort := listened.value);
      outcome := Continue;
    }

    /**
     * onTcpClientConnected: the tunnel dial for an accepted client, sent
     * without headers; None when the tunnel URL does not parse and the client
     * is dropped.
     */
    function TunnelDial(urlParses: bool): (r: Option<DialRequest>)
      reads this
      ensures r.Some? <==> urlParses
      ensures r.Some? ==> r.value.meshAuth.None? && r.value.url == settings.serverUrl + "?" + RenderQuery(TunnelQuery(settings))
    {
      TunnelUrlQuery(settings);
      if urlParses then Some(DialRequest(TunnelUrl(settings), None)) else None
    }
  }
}
