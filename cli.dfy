/**
 * The command-line front ends: parseBindAddress of cmd/route.go, and the
 * argument handling, call sequence and ssh command line of the `ssh`
 * command in cmd/ssh.go.
 */
module Cli {
  import opened Wrappers
  import opened Text
  import opened Session
  import opened Protocol
  import MeshRouter
  import Profiles

  // ---------------------------------------------------------------------
  // parseBindAddress
  // ---------------------------------------------------------------------

  /** The regular-expression class `[\w\.\-]`: ASCII letters, digits, `_`, `.` and `-`. */
  predicate IsTargetChar(c: char) {
    'a' <= c <= 'z' || 'A' <= c <= 'Z' || '0' <= c <= '9' || c == '_' || c == '.' || c == '-'
  }

  /** The language of `[\w\.\-]+`. */
  predicate IsTarget(s: string) {
    |s| > 0 && forall i :: 0 <= i < |s| ==> IsTargetChar(s[i])
  }

  /**
   * `s` matches `^(?:(\d+)(?::([\w\.\-]+))?:)?(\d+)$` with the capture groups
   * `l`, `t` and `r`, an unmatched group being the empty string.
   */
  predicate Matches(s: string, l: string, t: string, r: string) {
    IsDigits(r) &&
    ((l == "" && t == "" && s == r) ||
     (IsDigits(l) && t == "" && s == l + ":" + r) ||
     (IsDigits(l) && IsTarget(t) && s == l + ":" + t + ":" + r))
  }

  /**
   * `FindStringSubmatch` with that pattern. Neither digits nor targets hold a
   * colon, so the number of colons decides which groups take part.
   */
  function BindGroups(s: string): (r: Option<(string, string, string)>)
    ensures r.Some? ==> IsDigits(r.value.2) && (r.value.0 == "" || IsDigits(r.value.0))
    ensures r.Some? && r.value.1 != "" ==> IsDigits(r.value.0) && IsTarget(r.value.1)
  {
    var parts := Split(s, ':');
    if |parts| == 1 && IsDigits(parts[0]) then Some(("", "", parts[0]))
    else if |parts| == 2 && IsDigits(parts[0]) && IsDigits(parts[1]) then Some((parts[0], "", parts[1]))
    else if |parts| == 3 && IsDigits(parts[0]) && IsTarget(parts[1]) && IsDigits(parts[2]) then Some((parts[0], parts[1], parts[2]))
    else None
  }

  lemma DigitsLackColon(s: string)
    requires AllDigits(s)
    ensures ':' !in s
  {
    assert forall i :: 0 <= i < |s| ==> s[i] != ':';
  }

  lemma TargetLacksColon(s: string)
    requires IsTarget(s)
    ensures ':' !in s
  {
    assert forall i :: 0 <= i < |s| ==> s[i] != ':';
  }

  /** Every match the scanner reports is a match of the pattern. */
  lemma BindGroupsSound(s: string)
    requires BindGroups(s).Some?
    ensures var g := BindGroups(s).value; Matches(s, g.0, g.1, g.2)
  {
    var parts := Split(s, ':');
    JoinSplit(s, ':');
    if |parts| == 2 {
      JoinTwo(parts[0], parts[1], ':');
      assert parts == [parts[0], parts[1]];
    } else if |parts| == 3 {
      JoinThree(parts[0], parts[1], parts[2], ':');
      assert parts == [parts[0], parts[1], parts[2]];
    }
  }

  /** Every match of the pattern is found, with its capture groups. */
  lemma BindGroupsComplete(s: string, l: string, t: string, r: string)
    requires Matches(s, l, t, r)
    ensures BindGroups(s) == Some((l, t, r))
  {
    DigitsLackColon(r);
    if l == "" && t == "" && s == r {
      SplitJoin([r], ':');
    } else if IsDigits(l) && t == "" && s == l + ":" + r {
      DigitsLackColon(l);
      JoinTwo(l, r, ':');
      SplitJoin([l, r], ':');
    } else {
      DigitsLackColon(l);
      TargetLacksColon(t);
      JoinThree(l, t, r, ':');
      SplitJoin([l, t, r], ':');
    }
  }

  /** A string the scanner rejects matches the pattern with no groups at all. */
  lemma BindGroupsRejects(s: string)
    requires BindGroups(s).None?
    ensures forall l, t, r :: !Matches(s, l, t, r)
  {
    forall l, t, r | Matches(s, l, t, r)
      ensures false
    {
      BindGroupsComplete(s, l, t, r);
    }
  }

  datatype BindAddress = BindAddress(localPort: int, target: string, remotePort: int)

  const BindFormatError: string := "invalid bind address format"

  /** The loopback target, which the tunnel treats as "no target". */
  const Loopback: string := "127.0.0.1"

  /**
   * parseBindAddress: `[local:[target:]]remote`. The ports are converted
   * with their conversion errors ignored and are not range-checked; a
   * rejected string gives zero values and an error.
   */
  function ParseBindAddress(s: string): (r: (BindAddress, Option<string>))
    ensures r.1.None? <==> BindGroups(s).Some?
    ensures r.0.target == "" || (IsTarget(r.0.target) && r.0.target != Loopback)
    ensures r.0.localPort >= 0 && r.0.remotePort >= 0
  {
    match BindGroups(s)
    case None => (BindAddress(0, "", 0), Some(BindFormatError))
    case Some((l, t, rp)) =>
      BindGroupsSound(s);
      (BindAddress(Atoi(l), if t == Loopback then "" else t, Atoi(rp)), None)
  }

  /** A string of the grammar gives its ports and its target, with only the loopback target erased. */
  lemma ParseBindAddressAccepts(s: string, l: string, t: string, r: string)
    requires Matches(s, l, t, r)
    ensures ParseBindAddress(s) == (BindAddress(Atoi(l), if t == Loopback then "" else t, Atoi(r)), None)
  {
    BindGroupsComplete(s, l, t, r);
  }

  /** Any other string gives the zero values and the format error. */
  lemma ParseBindAddressRejects(s: string)
    requires forall l, t, r :: !Matches(s, l, t, r)
    ensures ParseBindAddress(s) == (BindAddress(0, "", 0), Some(BindFormatError))
  {
    if BindGroups(s).Some? {
      BindGroupsSound(s);
    }
  }

  /** `local:remote` with any two decimal numbers, in range for a port or not. */
  lemma ParseTwoPorts(local: nat, remote: nat)
    requires local <= MaxInt && remote <= MaxInt
    ensures ParseBindAddress(NatToDecimal(local) + ":" + NatToDecimal(remote)) == (BindAddress(local, "", remote), None)
  {
    AtoiOfDecimal(local);
    AtoiOfDecimal(remote);
    ParseBindAddressAccepts(NatToDecimal(local) + ":" + NatToDecimal(remote), NatToDecimal(local), "", NatToDecimal(remote));
  }

  /** A single number is the remote port, with local port 0 and no target. */
  lemma ParseRemoteOnly(remote: nat)
    requires remote <= MaxInt
    ensures ParseBindAddress(NatToDecimal(remote)) == (BindAddress(0, "", remote), None)
  {
    AtoiOfDecimal(remote);
    ParseBindAddressAccepts(NatToDecimal(remote), "", "", NatToDecimal(remote));
  }

  /** A target needs a local port in front of it: `host:22` is rejected. */
  lemma TargetNeedsLocalPort(host: string, remote: string)
    requires IsTarget(host) && !IsDigits(host) && IsDigits(remote)
    ensures ParseBindAddress(host + ":" + remote) == (BindAddress(0, "", 0), Some(BindFormatError))
  {
    TargetLacksColon(host);
    DigitsLackColon(remote);
    JoinTwo(host, remote, ':');
    SplitJoin([host, remote], ':');
  }

  // ---------------------------------------------------------------------
  // The ssh command
  // ---------------------------------------------------------------------

  const DefaultUser: string := "root"

  /**
   * The `[user][@target]` argument: with exactly one argument, the user is
   * the text before the first `@`, and the target is the text after it when
   * there is exactly one `@`; otherwise `root` and no target.
   */
  function SplitUserTarget(args: seq<string>): (ut: (string, string))
    ensures '@' !in ut.0 && '@' !in ut.1
  {
    if |args| == 1 then
      var parts := Split(args[0], '@');
      (parts[0], if |parts| == 2 then parts[1] else "")
    else (DefaultUser, "")
  }

  /** No argument, or more than one: `root` and no target. */
  lemma SplitUserTargetDefault(args: seq<string>)
    requires |args| != 1
    ensures SplitUserTarget(args) == (DefaultUser, "")
  {
  }

  /** An argument without `@` is the user alone. */
  lemma SplitUserOnly(user: string)
    requires '@' !in user
    ensures SplitUserTarget([user]) == (user, "")
  {
    SplitJoin([user], '@');
  }

  /** `user@target` is split back into its two halves. */
  lemma SplitUserAtTarget(user: string, target: string)
    requires '@' !in user && '@' !in target
    ensures SplitUserTarget([user + "@" + target]) == (user, target)
  {
    JoinTwo(user, target, '@');
    SplitJoin([user, target], '@');
  }

  /** With a second `@`, the user is the text before the first one and the target is dropped. */
  lemma SplitUserManyAts(user: string, rest: string)
    requires '@' !in user && '@' in rest
    ensures SplitUserTarget([user + "@" + rest]) == (user, "")
  {
    var tail := "@" + rest;
    assert user + "@" + rest == user + tail;
    SplitPrefix(user, tail, '@');
    assert tail[0] == '@' && tail[1..] == rest;
    SplitAtSeparator(rest, '@');
    var parts := Split(user + tail, '@');
    assert Split(tail, '@') == [""] + Split(rest, '@');
    assert parts == [user + ""] + Split(tail, '@')[1..];
    assert user + "" == user;
    assert |parts| >= 3;
    assert [user + "@" + rest][0] == user + tail;
  }

  /** The `-o` options passed to ssh, in order. */
  const SshOptions: seq<string> := [
    "-o", "ServerAliveInterval=60",
    "-o", "ServerAliveCountMax=3",
    "-o", "StrictHostKeyChecking=no",
    "-o", "UserKnownHostsFile=/dev/null"]

  /** The command line of the ssh client: to `user` on the loopback address, through the local port. */
  function SshArgv(localPort: int, user: string): (argv: seq<string>)
    ensures |argv| == 11 && argv[0] == "ssh" && argv[1..9] == SshOptions
  {
    ["ssh"] + SshOptions + ["-p" + IntToDecimal(localPort), user + "@" + Loopback]
  }

  /**
   * The ssh command line is the program, the four fixed options, then a
   * port option from which the local port reads back and a destination
   * from which the user and the loopback host split back.
   */
  lemma SshArgvReadsBack(localPort: nat, user: string)
    requires localPort <= MaxInt && '@' !in user
    ensures var argv := SshArgv(localPort, user);
      |argv| == 11 && argv[0] == "ssh" && argv[1..9] == SshOptions &&
      argv[9][..2] == "-p" && AllDigits(argv[9][2..]) && Atoi(argv[9][2..]) == localPort &&
      Split(argv[10], '@') == [user, Loopback]
  {
    var argv := SshArgv(localPort, user);
    assert argv[9] == "-p" + IntToDecimal(localPort);
    assert argv[10] == user + "@" + Loopback;
    PortOptionReadsBack(localPort);
    DestinationSplits(user);
  }

  lemma PortOptionReadsBack(localPort: nat)
    requires localPort <= MaxInt
    ensures var option := "-p" + IntToDecimal(localPort);
      option[..2] == "-p" && AllDigits(option[2..]) && Atoi(option[2..]) == localPort
  {
    AtoiOfDecimal(localPort);
    assert ("-p" + IntToDecimal(localPort))[2..] == IntToDecimal(localPort);
  }

  lemma DestinationSplits(user: string)
    requires '@' !in user
    ensures Split(user + "@" + Loopback, '@') == [user, Loopback]
  {
    JoinTwo(user, Loopback, '@');
    SplitJoin([user, Loopback], '@');
  }

  /**
   * The banner `SSH into <target>:<port> via <address>` with the address as
   * ssh.go spells it; the trailing newline of the format is not part of it.
   * The address is the loopback host with the port's digits glued on, so it
   * holds no ':' to separate them.
   */
  function BannerAsWritten(target: string, remotePort: int, localPort: int): (b: string)
    ensures |BannerHead(target, remotePort)| <= |b| && b[..|BannerHead(target, remotePort)|] == BannerHead(target, remotePort)
    ensures 0 <= localPort ==> ':' !in b[|BannerHead(target, remotePort)|..]
  {
    var head, address := BannerHead(target, remotePort), Loopback + IntToDecimal(localPort);
    if 0 <= localPort then
      DecimalRoundTrip(localPort);
      DigitsLackColon(IntToDecimal(localPort));
      assert ':' !in Loopback;
      assert (head + address)[|head|..] == address;
      head + address
    else
      head + address
  }

  /** The text before the address in either banner. */
  function BannerHead(target: string, remotePort: int): string {
    "SSH into " + target + ":" + IntToDecimal(remotePort) + " via "
  }

  /** The address at the end of a banner, after `" via "`. */
  function BannerAddress(target: string, remotePort: int, banner: string): string
    requires |"SSH into " + target + ":" + IntToDecimal(remotePort) + " via "| <= |banner|
  {
    banner[|"SSH into " + target + ":" + IntToDecimal(remotePort) + " via "|..]
  }

  /**
   * As written, the banner glues the port onto the loopback address: for
   * local port 22 it names the host 127.0.0.122 and no port at all.
   */
  lemma BannerAsWrittenLosesPort(target: string, remotePort: int)
    ensures var b := BannerAsWritten(target, remotePort, 22);
      BannerAddress(target, remotePort, b) == "127.0.0.122" && ':' !in BannerAddress(target, remotePort, b)
  {
    var head := "SSH into " + target + ":" + IntToDecimal(remotePort) + " via ";
    assert BannerAsWritten(target, remotePort, 22) == head + (Loopback + IntToDecimal(22));
    assert IntToDecimal(22) == "22";
  }

  /**
   * The banner with the colon between the address and the port (again
   * without the trailing newline): its address opens with the loopback host
   * and the ':'.
   */
  function Banner(target: string, remotePort: int, localPort: int): (b: string)
    ensures |BannerHead(target, remotePort)| + |Loopback| < |b| && b[..|BannerHead(target, remotePort)|] == BannerHead(target, remotePort)
    ensures b[|BannerHead(target, remotePort)|..][..|Loopback| + 1] == Loopback + ":"
  {
    var head, address := BannerHead(target, remotePort), Loopback + ":" + IntToDecimal(localPort);
    assert (head + address)[|head|..] == address;
    head + address
  }

  /** The corrected banner names the loopback host and a port that reads back as the local port. */
  lemma BannerReadsBack(target: string, remotePort: int, localPort: nat)
    requires localPort <= MaxInt
    ensures var address := BannerAddress(target, remotePort, Banner(target, remotePort, localPort));
      Split(address, ':') == [Loopback, IntToDecimal(localPort)] && AllDigits(IntToDecimal(localPort)) && Atoi(IntToDecimal(localPort)) == localPort
  {
    var head := "SSH into " + target + ":" + IntToDecimal(remotePort) + " via ";
    var address := Loopback + ":" + IntToDecimal(localPort);
    assert Banner(target, remotePort, localPort) == head + address;
    AtoiOfDecimal(localPort);
    LoopbackAddressSplits(IntToDecimal(localPort));
  }

  /** `127.0.0.1:<digits>` splits at ':' into the host and the digits. */
  lemma LoopbackAddressSplits(digits: string)
    requires AllDigits(digits)
    ensures Split(Loopback + ":" + digits, ':') == [Loopback, digits]
  {
    DigitsLackColon(digits);
    assert ':' !in Loopback;
    JoinTwo(Loopback, digits, ':');
    assert Loopback + ":" + digits == Loopback + [':'] + digits;
    SplitJoin([Loopback, digits], ':');
  }

  /** The step of the ssh command at which the process ended. */
  datatype Stage = Connect | Query | Listen

  /** How the ssh command ends. */
  datatype SshEnd =
    | Spawned(argv: seq<string>, banner: string) // the tunnel listens and the ssh client is started
    | Exited(stage: Stage, outcome: Outcome)     // the process ended with this outcome
    | Blocked                                    // the device list never arrives and the command waits for ever

  /**
   * The connect step of the ssh command: store the tunnel parameters, then
   * open the control connection of the default profile.
   */
  method OpenSession(router: MeshRouter.Router, store: Profiles.ProfileStore, nodeId: string, remotePort: int,
                 localPort: int, target: string, debug: bool, urlParses: bool, dialError: Option<string>)
    returns (outcome: Outcome)
    modifies router
    ensures outcome == if !urlParses then Exit(1, MeshRouter.UnparsableUrl)
                       else if dialError.Some? then Exit(1, "Unable to connect to server: " + dialError.value)
                       else Continue
    ensures router.sent == old(router.sent)
    ensures router.settings.remoteNodeId == nodeId && router.settings.remotePort == remotePort &&
      router.settings.localPort == localPort && router.settings.remoteTarget == target
  {
    router.ApplySettings(nodeId, remotePort, localPort, target, debug);
    var request;
    request, outcome := router.StartSocket(store, urlParses, dialError);
  }

  /**
   * The query step of the ssh command: ask for the device list and, once it
   * arrives, take the node the user picks from it as the remote node. The
   * command ends here when a handler ends the process or the list never
   * arrives.
   */
  method AwaitDevices(router: MeshRouter.Router, events: seq<Event>, chosen: string, remotePort: int,
                      localPort: int, target: string, debug: bool)
    returns (ended: Option<SshEnd>)
    modifies router
    ensures |router.sent| > |old(router.sent)| && router.sent[..|old(router.sent)| + 1] == old(router.sent) + [NodesRequest]
    ensures ended.Some? ==> ended.value.Blocked? || (ended.value.Exited? && ended.value.stage == Query && !ended.value.outcome.Continue?)
    ensures ended.None? ==>
      router.settings.remoteNodeId == chosen && router.settings.remotePort == remotePort &&
      router.settings.localPort == localPort && router.settings.remoteTarget == target
  {
    var devices, stop := router.GetDevices(events);
    assert router.sent[..|old(router.sent)| + 1] == old(router.sent) + [NodesRequest];
    if devices.None? {
      if stop.Terminated? {
        return Some(Exited(Query, stop.outcome));
      }
      return Some(Blocked);
    }
    router.ApplySettings(chosen, remotePort, localPort, target, debug);
    ended := None;
  }

  /**
   * The `Run` of the ssh command. The dial results, the events the reader
   * handles while the device list is awaited, the node the user picks from
   * that list and the outcome of the listen are parameters. The local port
   * asked for is always 0, and the device list is queried only without a
   * node id.
   */
  method SshRun(router: MeshRouter.Router, store: Profiles.ProfileStore, args: seq<string>, remotePort: int,
                nodeId: string, debug: bool, urlParses: bool, dialError: Option<string>,
                events: seq<Event>, chosen: string, listened: Option<int>, listenError: string)
    returns (end: SshEnd)
    modifies router
    ensures (end.Exited? && end.stage == Connect) <==> !urlParses || dialError.Some?
    ensures !urlParses ==> end == Exited(Connect, Exit(1, MeshRouter.UnparsableUrl))
    ensures urlParses && dialError.Some? ==>
      end == Exited(Connect, Exit(1, "Unable to connect to server: " + dialError.value))
    ensures nodeId != "" ==> router.sent == old(router.sent) && !end.Blocked? && !(end.Exited? && end.stage == Query)
    ensures nodeId == "" && urlParses && dialError.None? ==>
      |router.sent| > |old(router.sent)| && router.sent[..|old(router.sent)| + 1] == old(router.sent) + [NodesRequest]
    ensures end.Exited? && end.stage == Query ==> !end.outcome.Continue?
    ensures end.Spawned? || (end.Exited? && end.stage == Listen) ==>
      router.settings.remoteNodeId == (if nodeId == "" then chosen else nodeId) &&
      router.settings.remotePort == remotePort && router.settings.remoteTarget == SplitUserTarget(args).1
    ensures end.Exited? && end.stage == Listen <==>
      urlParses && dialError.None? && listened.None? && !end.Blocked? && !(end.Exited? && end.stage == Query)
    ensures end.Exited? && end.stage == Listen ==>
      end.outcome == Exit(1, "Unable to bind to local TCP port 0: " + listenError)
    ensures end.Spawned? ==>
      listened == Some(router.settings.localPort) &&
      end.argv == SshArgv(router.settings.localPort, SplitUserTarget(args).0) &&
      end.banner == BannerAsWritten(SplitUserTarget(args).1, remotePort, router.settings.localPort)
  {
    var (user, target) := SplitUserTarget(args);
    var localPort := 0;
    var outcome := OpenSession(router, store, nodeId, remotePort, localPort, target, debug, urlParses, dialError);
    if !outcome.Continue? {
      return Exited(Connect, outcome);
    }
    if nodeId == "" {
      var ended := AwaitDevices(router, events, chosen, remotePort, localPort, target, debug);
      if ended.Some? {
        return ended.value;
      }
    }
    outcome := router.StartRouter(listened, listenError);
    if !outcome.Continue? {
      return Exited(Listen, outcome);
    }
    var sshPort := router.GetLocalPort();
    return Spawned(SshArgv(sshPort, user), BannerAsWritten(target, remotePort, sshPort));
  }
}
