# mesh-central-client-go: a verified model of the relay client

This project models the core of `mcc`, a command-line client for a MeshCentral
server. The client logs in over a control WebSocket, lists the server's
devices, and forwards a local TCP port to a port on a remote node through the
server's relay. The model covers:

- **Control channel** (`internal/meshrouter/meshrouter.go`). It covers:
  - the one-time-token choice;
  - the `x-meshauth` header, with base64 as in section 4 of RFC 4648;
  - the control URL and the choice of header;
  - the reader loop and its command handlers (`serverinfo`, `authcookie`,
    `serverAuth`, `close`, `nodes`);
  - the one-shot cookie renewal timer;
  - the device query of `GetDevices`;
  - the listener of `StartRouter`;
  - the tunnel URL of `onTcpClientConnected`;
  - the two byte pumps of `onWebSocket`.
- **Node directory** (`internal/meshcentral/devices.go`). Each node record is
  normalised to a `Device`, and the groups of records are flattened into the
  device list.
- **Settings** (`internal/meshcentral/config.go`). `ApplySettings` is a
  five-field update.
- **Command line**:
  - `parseBindAddress` of `cmd/route.go`;
  - the `[user][@target]` split of `cmd/ssh.go`;
  - the ssh command line, and the order in which the `ssh` command calls the
    router.
- **Profiles** (`internal/config/profile.go`). These are the operations on the
  profile list and the default-profile key. The configuration store is a class
  whose fields are the two keys plus a count of configuration writes.

## Structure

| file | module | contents |
|---|---|---|
| `wrappers.dfy` | `Wrappers` | `Option` |
| `text.dfy` | `Text` | the Go semantics of `strings.Split`, `strings.Join`, `strings.Index`, `strings.Replace(…, 1)`, `strconv.Atoi` (which clamps to the largest 64-bit `int` on overflow) and `%d` |
| `base64.dfy` | `Base64` | standard base64 encoding and a decoder for it; the UTF-8 bytes of a string |
| `profiles.dfy` | `Profiles` | profiles, `ProfileNotFoundError`, class `ProfileStore` |
| `session.dfy` | `Session` | `Settings`, `Device`, node records, `ApplySettings`, normalising and flattening `nodes` |
| `protocol.dfy` | `Protocol` | the pure parts of the control channel as functions: headers, JSON frames, URLs, `Handle`/`Step` (one command or timer firing), `Run` (the reader loop over a list of events) and their lemmas |
| `meshrouter.dfy` | `MeshRouter` | class `Router`: the package variable `settings` and the frames written on the control connection; each handler is a method proved to perform the `Protocol` transition |
| `relay.dfy` | `Relay` | the WebSocket→TCP and TCP→WebSocket pumps as loops, each proved against a function |
| `cli.dfy` | `Cli` | `parseBindAddress`, the ssh argument split and command line, and the `ssh` command's `Run` |

The Go code keeps its state in a package-global `settings` record. The model
puts it in the fields of `MeshRouter.Router`, and each handler method's
`ensures` ties the new fields and the frames sent to a function in `Protocol`.
Lemmas on those functions state what the handlers promise.

Socket reads and dial or listen results are parameters:

- Incoming control messages are a list of already-decoded `Event`s:
  - a command;
  - a read error;
  - a renewal timer firing.
- Whether a URL parses and how a dial or listen ends are arguments.
- In the pumps, each read carries whether the write it causes fails.

Go's unchecked type assertions (`command["cookie"].(string)` and so on) panic
when a field is missing or has the wrong type. The model makes that outcome
`Panic` and leaves the state as it was at the point of the panic.

### Source behaviour kept as written

- The cookie renewal in `handleAuthCookieCommand`
  (internal/meshrouter/meshrouter.go:270-276) is a one-shot `time.AfterFunc`
  that is armed whenever the stored cookie is empty and is never cancelled.
  `renewTimers` counts armed timers that have not fired; firing sends one
  `authcookie` request and disarms.
  - `Protocol.AtMostOneRenewal` shows that, while cookies stay non-empty, at
    most one renewal happens in the session.
  - `Protocol.EmptyCookieRearms` shows that an empty cookie re-arms the timer.
- In cookie mode, `StartSocket` (internal/meshrouter/meshrouter.go:103-136)
  writes `auth=<cookie>` into the query of the parsed URL. It then dials a
  string derived from the unparsed server URL, so neither that query nor an
  `x-meshauth` header is sent. `Protocol.ControlUrlIgnoresCookie` and
  `Protocol.ControlRequestAuth` state this.

## Model

| member | source | states |
|---|---|---|
| Text.SplitJoin | cmd/ssh.go:27 | splitting a joined list on a separator that no part holds gives the list back |
| Text.Split | cmd/ssh.go:27 | `strings.Split` on one character: at least one part, and no part holds the separator |
| Text.Join | cmd/ssh.go:27 | `strings.Join`: one part is returned as is; with two or more, the first part is followed by the separator |
| Text.JoinSplit | cmd/ssh.go:27 | joining the parts of a split with the same separator gives the string back |
| Text.SplitAtSeparator | cmd/ssh.go:27-29 | a string that holds the separator splits into at least two parts |
| Text.DecimalRoundTrip | internal/meshrouter/meshrouter.go:374-375 | the `%d` spelling of a natural number is a non-empty digit string whose value is that number |
| Text.DecimalSpelling | internal/meshrouter/meshrouter.go:374-375 | the `%d` spelling of any integer holds only digits and a minus sign, so it never holds `&` or `=` |
| Text.AtoiOfDecimal | cmd/route.go:82-84 | `strconv.Atoi` reads every non-negative 64-bit `int` back from its spelling |
| Text.Atoi | cmd/route.go:82-84 | `strconv.Atoi` of a digit string, with the error ignored: a value between 0 and the largest 64-bit `int` (the clamp on overflow), and 0 for the empty string |
| Text.IntToDecimal | internal/meshrouter/meshrouter.go:374-375 | `%d`: a non-negative number is spelled in digits only, a negative one as `-` and digits |
| Text.ReplaceFirst | internal/meshrouter/meshrouter.go:128 | `strings.Replace(s, pat, rep, 1)`: without the pattern, s unchanged; otherwise the first occurrence is cut out and the replacement put in its place, with the text on both sides kept |
| Text.IndexOf | internal/meshrouter/meshrouter.go:128 | the result is the first position where the pattern occurs; None exactly when it occurs nowhere |
| Base64.SymbolValue | internal/meshrouter/meshrouter.go:110-113 | a character has a value exactly when it is one of the 64 symbols of the standard alphabet |
| Base64.SymbolRoundTrip | internal/meshrouter/meshrouter.go:110-113 | each 6-bit value's symbol decodes back to it |
| Base64.EncodeOne | internal/meshrouter/meshrouter.go:110-113 | a final single byte of `base64.StdEncoding` becomes four characters, each a symbol or `=` |
| Base64.EncodeTwo | internal/meshrouter/meshrouter.go:110-113 | a final pair of bytes becomes four characters, each a symbol or `=` |
| Base64.EncodeThree | internal/meshrouter/meshrouter.go:110-113 | a full group of three bytes becomes four alphabet symbols, with no padding |
| Base64.Encode | internal/meshrouter/meshrouter.go:110-113 | the encoding of n bytes has 4·⌈n/3⌉ characters |
| Base64.EncodeAlphabet | internal/meshrouter/meshrouter.go:110-113 | an encoding holds only alphabet symbols and `=` |
| Base64.DecodeEncode | internal/meshrouter/meshrouter.go:110-113 | decoding the encoding of any byte string gives the bytes back |
| Base64.CharUtf8 | internal/meshrouter/meshrouter.go:110-111 | a character takes 1 to 4 bytes, and exactly the ASCII characters take one byte equal to their code |
| Base64.Utf8 | internal/meshrouter/meshrouter.go:110-111 | `[]byte(s)` of a string of n characters has between n and 4n bytes, and is empty exactly when the string is |
| Base64.EncodeString | internal/meshrouter/meshrouter.go:110-113 | the encoding of a string is empty exactly when the string is, and holds only alphabet symbols and `=` |
| Base64.EncodedLacks | internal/meshrouter/meshrouter.go:110-115 | no encoding holds a comma, a quote or any other non-alphabet character, so the header fields stay apart |
| Profiles.ErrorMessage | internal/config/profile.go:104-106 | the message is `Profile not found: ` followed by the name |
| Profiles.ErrorMessageInjective | internal/config/profile.go:104-106 | two errors with the same message name the same profile |
| Profiles.FindIndex | internal/config/profile.go:28-34 | the result is the first position holding the name; None exactly when no profile has it |
| Profiles.Without | internal/config/profile.go:89-93 | no remaining profile has the name, and the list shrinks by the number of profiles that had it |
| Profiles.WithoutSingle | internal/config/profile.go:89-93 | a name held once is removed by cutting out exactly its entry, the others keeping their order |
| Profiles.WithoutAbsent | internal/config/profile.go:89-93 | removing an absent name leaves the list unchanged |
| Profiles.ProfileStore.GetProfiles | internal/config/profile.go:13-19 | the stored list, as stored |
| Profiles.ProfileStore.GetDefaultProfileName | internal/config/profile.go:37-39 | the stored `default_profile`, unchanged |
| Profiles.ProfileStore.GetDefaultProfile | internal/config/profile.go:21-35 | the first profile named `default_profile` (by its loop), or the zero profile when none is |
| Profiles.ProfileStore.SetDefaultProfile | internal/config/profile.go:41-57 | no error exactly when the name exists; then the default is that name and the configuration is written only on commit; otherwise ProfileNotFoundError(name) and nothing changes |
| Profiles.ProfileStore.AddProfile | internal/config/profile.go:59-81 | the new profile is appended with no duplicate check and returned; the default changes only when asked; one write |
| Profiles.ProfileStore.RemoveProfile | internal/config/profile.go:83-97 | for a name held at most once, the list becomes `Without(name)`, with the default kept and one write |
| Session.ApplySettings | internal/meshrouter/meshrouter.go:60-69 | the five tunnel parameters take the arguments and every other field is kept; `ApplySettings` in internal/meshcentral/config.go:48-57 is the same update |
| Session.ApplySettingsIdempotent | internal/meshcentral/config.go:48-57 | applying the same arguments twice equals applying them once |
| Session.ApplySettingsLastWins | internal/meshcentral/config.go:48-57 | a second call overrides all five fields of the first |
| Session.Normalise | internal/meshcentral/devices.go:19-47 | a record gives a device exactly when `_id`, `rname` and `icon` are present; the name comes from `rname`; a missing `osdesc`/`ip` becomes "" and a missing `pwr`/`conn` becomes 0 |
| Session.NameIsIgnored | internal/meshcentral/devices.go:21-39 | the record's `name` field, present or not, has no effect on the device |
| Session.NormaliseAll | internal/meshcentral/devices.go:18-49 | a group gives devices exactly when every record is complete, one device per record, in record order |
| Session.Flatten | internal/meshcentral/devices.go:14-50 | the groups, in the order the map yields them, flattened into devices; a result has one device per record |
| Session.FlattenDefinedIff | internal/meshcentral/devices.go:14-50 | flattening succeeds exactly when every record of every group is complete |
| Session.FlattenAt | internal/meshcentral/devices.go:16-49 | record j of group g becomes the device at the offset of group g plus j, so order within a group is kept |
| Session.FlattenAppend | internal/meshcentral/devices.go:16-50 | the devices of two runs of groups are the devices of each, concatenated |
| Session.FlattenOrderIrrelevant | internal/meshcentral/devices.go:16 | in whatever order the map yields its groups, flattening succeeds or fails alike and gives the same multiset of devices |
| Protocol.ResolveToken | internal/meshrouter/meshrouter.go:93-100 | the email marker wins over the SMS marker, which wins over the token; the result is empty exactly when no token source is set; the `serverAuth` handler (meshrouter.go:293-300) makes the same choice |
| Protocol.MeshAuthRoundTrip | internal/meshrouter/meshrouter.go:110-115 | the header parses back into the UTF-8 bytes of username and password, plus the token exactly when it is non-empty |
| Protocol.MeshAuthHeader | internal/meshrouter/meshrouter.go:110-115 | the header opens with the encoded user name, which holds no comma, and a comma ends it |
| Protocol.RelayUrl | internal/meshrouter/meshrouter.go:80 | the relay URL is `wss://`, the server, `/` and `meshrelay.ashx` |
| Protocol.ControlUrl | internal/meshrouter/meshrouter.go:128 | without `meshrelay.ashx` the URL is kept; otherwise the first occurrence becomes `control.ashx`, the text before it kept |
| Protocol.ControlRequest | internal/meshrouter/meshrouter.go:102-136 | the dial goes to the control URL; the header is `*` exactly when a server id is held, and absent exactly when there is no server id and an auth cookie is held |
| Protocol.ControlRequestAuth | internal/meshrouter/meshrouter.go:102-119 | with a server id the header is `*`; otherwise, without a cookie, the header is a credential header that parses back (with a token exactly when a token source is set); with a cookie, no header |
| Protocol.ControlUrlIgnoresCookie | internal/meshrouter/meshrouter.go:104-136 | the dialed URL does not depend on the auth cookie or the tokens: the query built in cookie mode is never sent |
| Protocol.ControlUrlOfServer | internal/meshrouter/meshrouter.go:80-128 | for a server name free of `meshrelay.ashx`, the control URL is `wss://<server>/control.ashx` |
| Protocol.ControlUrlRewritesHost | internal/meshrouter/meshrouter.go:128 | the first occurrence is replaced, so a server name that begins with `meshrelay.ashx` has its host rewritten and keeps the relay path |
| Protocol.UserAuthFrameIsObject | internal/meshrouter/meshrouter.go:302-317 | the `userAuth` text is exactly the JSON object of its fields, in order |
| Protocol.UserAuthFrame | internal/meshrouter/meshrouter.go:302-317 | the frame opens with the `userAuth` action and ends with `}`; its second key is `auth` exactly when an auth cookie is held |
| Protocol.UserAuthKeys | internal/meshrouter/meshrouter.go:302-317 | the first key is `action`; `auth` is present exactly with a cookie; `username`/`password` exactly without one; `token` exactly when a token source is set |
| Protocol.QueryRoundTrip | internal/meshrouter/meshrouter.go:374-383 | a rendered query parses back into its pairs when keys have no `=` and nothing holds `&` |
| Protocol.TunnelUrl | internal/meshrouter/meshrouter.go:374-383 | the tunnel URL is the relay URL, not the control URL, followed by `?` |
| Protocol.TunnelQuery | internal/meshrouter/meshrouter.go:374-383 | the pairs are `auth` (the cookie), `nodeid`, `tcpport` (whose digits read back as the port) and `tcpaddr` exactly when a target is set |
| Protocol.TunnelUrlQuery | internal/meshrouter/meshrouter.go:374-383 | the tunnel URL is the relay URL, `?`, then `auth`, `nodeid`, `tcpport` and `tcpaddr` (only for a non-empty target), rendered as a query |
| Protocol.TunnelQueryReadsBack | internal/meshrouter/meshrouter.go:374-383 | when cookie, node id and target hold no `&`, the query parses back into exactly those values |
| Protocol.CloseOutcome | internal/meshrouter/meshrouter.go:239-268 | exit with status 1 exactly on cause `noauth`, with the message chosen by `msg` and the 2FA flags; otherwise continue |
| Protocol.NoAuthMessage | internal/meshrouter/meshrouter.go:241-260 | the message opens with `Login token` exactly when `msg` is `tokenrequired` |
| Protocol.Run | internal/meshrouter/meshrouter.go:157-190 | the reader never consumes more events than there are, and it consumes all of them when it runs out |
| Protocol.Handle | internal/meshrouter/meshrouter.go:171-320 | a handler sends at most one frame, exits only on `close`, panics only in `authcookie` or `nodes` (sending nothing), arms at most one timer, keeps the login and tunnel settings, and only a successful `nodes` replaces the device list |
| Protocol.Fire | internal/meshrouter/meshrouter.go:274-276 | a firing never ends the session; it sends one `authcookie` request exactly when a timer is armed, and spends that timer |
| Protocol.Step | internal/meshrouter/meshrouter.go:171-188 | one event sends at most one frame; a timer firing continues and keeps the device list; only a `nodes` message changes the list |
| Protocol.TerminatedEnds | internal/meshrouter/meshrouter.go:157-190 | a run ended by a handler ends with an exit or a panic, never with "continue" |
| Protocol.DispatchBasics | internal/meshrouter/meshrouter.go:171-188 | an unparsable message and an unknown action change nothing and send nothing; `serverinfo` sends exactly one `authcookie` request |
| Protocol.AuthCookieTransition | internal/meshrouter/meshrouter.go:270-285 | both cookies are stored and a timer is armed only when no cookie was held; missing fields panic, and a missing `rcookie` panics after the cookie is stored |
| Protocol.ServerAuthTransition | internal/meshrouter/meshrouter.go:287-320 | the server id is cleared, the HTTPS hash takes the TLS hash, the TLS hash is cleared, and exactly one `userAuth` object is sent |
| Protocol.CloseTransition | internal/meshrouter/meshrouter.go:239-268 | a `close` never changes the session or sends, and exits exactly on `noauth` |
| Protocol.NodesTransition | internal/meshrouter/meshrouter.go:193-237 | it succeeds exactly when all records are complete; then the list is replaced wholesale by the flattening (one device per record) and the state is Idle; otherwise it panics with the session unchanged |
| Protocol.StepKeepsDirectory | internal/meshrouter/meshrouter.go:177-188 | no event other than `nodes` touches the device list or the query state |
| Protocol.ReadErrorEndsRun | internal/meshrouter/meshrouter.go:158-169 | a read error ends the reader at once, with nothing changed or sent |
| Protocol.StepPotential | internal/meshrouter/meshrouter.go:270-276 | with non-empty cookies, a step never raises armed timers plus "no cookie yet", and each renewal lowers it |
| Protocol.RenewalsBounded | internal/meshrouter/meshrouter.go:270-276 | a run with non-empty cookies renews at most as often as that potential allows |
| Protocol.AtMostOneRenewal | internal/meshrouter/meshrouter.go:270-276 | from a session without a cookie, the one-shot timer gives at most one renewal while cookies are non-empty |
| Protocol.EmptyCookieRearms | internal/meshrouter/meshrouter.go:270-276 | from a session holding no cookie, for any refresh cookie and any k, k empty cookies arm k more one-shot timers, and the firings of all armed timers that follow are all renewals |
| Protocol.TimersFire | internal/meshrouter/meshrouter.go:274-276 | with as many armed timers as timer firings, every firing is a renewal |
| Protocol.AnswerIsLatestNodes | internal/meshrouter/meshrouter.go:323-333 | a pending query is answered only by a successful `nodes` response, the last event handled; the list is its flattening and the state is Idle |
| MeshRouter.Router.ApplySettings | internal/meshrouter/meshrouter.go:60-69 | the fields become `Session.ApplySettings` of the old ones; nothing is sent |
| MeshRouter.Router.GetLocalPort | internal/meshrouter/meshrouter.go:71-73 | the stored local port |
| MeshRouter.Router.StartSocket | internal/meshrouter/meshrouter.go:75-152 | the default profile's credentials and relay URL are stored; a request is made exactly when the URL parses, with the header `ControlRequest` chooses; the exit messages for a bad URL and a failed dial; nothing is sent |
| MeshRouter.Router.HandleAuthCookie | internal/meshrouter/meshrouter.go:270-285 | performs the `authcookie` transition |
| MeshRouter.Router.HandleServerAuth | internal/meshrouter/meshrouter.go:287-320 | performs the `serverAuth` transition, sending its frame |
| MeshRouter.Router.Advance | internal/meshrouter/meshrouter.go:156-189 | one turn of the reader loop: the frames it sends are those of `Run`; it stops exactly where `Run` stops, with the same settings, or leaves the loop ready for the next event |
| MeshRouter.NormaliseRecords | internal/meshrouter/meshrouter.go:201-232 | the inner loop gives one device per record of the group, in order, exactly as `NormaliseAll` does, or stops at a record whose `_id`, `rname` or `icon` assertion panics |
| MeshRouter.Router.HandleNodes | internal/meshrouter/meshrouter.go:193-237 | its nested append loops produce the `nodes` transition: the flattening or the panic; internal/meshcentral/devices.go:10-54 is the same handler |
| MeshRouter.Router.FireRenewal | internal/meshrouter/meshrouter.go:274-276 | an armed timer fires once: it sends one `authcookie` request and disarms |
| MeshRouter.Router.Dispatch | internal/meshrouter/meshrouter.go:171-188 | the loop body performs `Step` for the event |
| MeshRouter.Router.Serve | internal/meshrouter/meshrouter.go:154-191 | the reader loop ends in the state, frames, stop reason and count of `Run` |
| MeshRouter.Router.GetDevices | internal/meshrouter/meshrouter.go:323-333 | sets Pending and sends one `nodes` request before waiting; returns a list exactly when the query is answered, and then it is the stored list with the state Idle; internal/meshcentral/devices.go:56-67 is the same poll |
| MeshRouter.Router.StartRouter | internal/meshrouter/meshrouter.go:340-352 | a failed listen exits with the bind message naming the requested port; otherwise the bound port is stored |
| MeshRouter.Router.TunnelDial | internal/meshrouter/meshrouter.go:374-391 | a tunnel dial happens exactly when the URL parses, with no header, to the relay URL with the tunnel query |
| Relay.ForwardedPayloads | internal/meshrouter/meshrouter.go:429 | every forwarded payload is non-empty, and there are no more of them than messages |
| Relay.WsToTcpRun | internal/meshrouter/meshrouter.go:415-437 | the pump never consumes more messages than it is given |
| Relay.WsToTcpWrites | internal/meshrouter/meshrouter.go:415-437 | the TCP writes are exactly the forwarded payloads before the stop, minus the failed one; the pump stops at a failed read or a forwarded message whose write fails |
| Relay.WsToTcpGoesOn | internal/meshrouter/meshrouter.go:415-437 | every message before the stop was received and, when forwarded, written: the pump stops at the first failure |
| Relay.ForwardedBytes | internal/meshrouter/meshrouter.go:429 | skipping empty binary frames loses no bytes, and text frames contribute none |
| Relay.WsToTcpStream | internal/meshrouter/meshrouter.go:415-437 | a pump that handled every message wrote exactly the bytes of the binary messages |
| Relay.WsToTcp | internal/meshrouter/meshrouter.go:415-437 | the loop computes `WsToTcpRun` |
| Relay.ReadChunks | internal/meshrouter/meshrouter.go:453-455 | every message carries at least one byte |
| Relay.TcpToWsSizes | internal/meshrouter/meshrouter.go:442-462 | when every read fits the 4096-byte buffer, every WebSocket message holds 1 to 4096 bytes |
| Relay.TcpToWsChunks | internal/meshrouter/meshrouter.go:442-462 | the messages are the non-empty reads up to the stop, in order; a failed write stops the pump at a non-empty read |
| Relay.TcpToWs | internal/meshrouter/meshrouter.go:442-462 | the loop computes `TcpToWsRun`, and every message holds 1 to 4096 bytes |
| Cli.BindGroupsSound | cmd/route.go:74-80 | every match found is a match of `^(?:(\d+)(?::([\w\.\-]+))?:)?(\d+)$` with those groups |
| Cli.BindGroupsComplete | cmd/route.go:74-80 | every match of the pattern is found, with its groups |
| Cli.BindGroupsRejects | cmd/route.go:74-80 | a rejected string matches the pattern with no groups at all |
| Cli.BindGroups | cmd/route.go:74-80 | the groups found: the remote port is digits, the local port digits or empty, and a target only comes with a local port |
| Cli.ParseBindAddress | cmd/route.go:72-92 | no error exactly when the pattern matches; the target is empty or a non-loopback `[\w.-]+`; ports are non-negative |
| Cli.ParseBindAddressAccepts | cmd/route.go:82-89 | a match gives `Atoi` of both ports and its target, with exactly `127.0.0.1` erased |
| Cli.ParseBindAddressRejects | cmd/route.go:77-80 | anything else gives (0, "", 0) and the format error |
| Cli.ParseTwoPorts | cmd/route.go:82-84 | `L:R` gives local L and remote R for any decimal numbers; ports are not range-checked |
| Cli.ParseRemoteOnly | cmd/route.go:74-84 | a single number is the remote port, with local port 0 and no target |
| Cli.TargetNeedsLocalPort | cmd/route.go:74-80 | `host:22` is rejected: a target needs a local port in front |
| Cli.SplitUserTarget | cmd/ssh.go:22-32 | neither the user nor the target ever holds `@` |
| Cli.SplitUserTargetDefault | cmd/ssh.go:22-25 | with no argument (or several), `root` and no target |
| Cli.SplitUserOnly | cmd/ssh.go:27-31 | an argument without `@` is the user alone |
| Cli.SplitUserAtTarget | cmd/ssh.go:27-31 | `u@t` splits back into u and t |
| Cli.SplitUserManyAts | cmd/ssh.go:27-31 | with two or more `@`, the user is the text before the first and the target stays empty |
| Cli.SshArgvReadsBack | cmd/ssh.go:75-82 | the command line is `ssh`, the four fixed options, a `-p` option from which the local port reads back, and `<user>@127.0.0.1` |
| Cli.SshArgv | cmd/ssh.go:77-82 | eleven words: `ssh`, then the fixed options |
| Cli.BannerAsWrittenLosesPort | cmd/ssh.go:76 | the banner as written names the host 127.0.0.122 and no port when the local port is 22 |
| Cli.BannerAsWritten | cmd/ssh.go:76 | the banner as printed, without its newline: after its head, no colon follows for a non-negative port |
| Cli.Banner | cmd/ssh.go:76 | the corrected banner: after its head comes the loopback host and a colon |
| Cli.BannerReadsBack | cmd/ssh.go:76 | the corrected banner's address splits into the loopback host and a port that reads back |
| Cli.OpenSession | cmd/ssh.go:42-50 | the settings take the node, ports and target; the connect step exits on an unparsable URL or a failed dial and otherwise goes on; nothing is sent |
| Cli.AwaitDevices | cmd/ssh.go:52-63 | one `nodes` request is sent; the command ends only when a handler ends the process or no list arrives; otherwise the chosen node becomes the remote node with the same ports and target |
| Cli.SshRun | cmd/ssh.go:20-90 | local port 0 is requested; devices are queried (one `nodes` frame) only without a node id; the connect, query and listen exits; on success the argv targets the bound port and the settings carry the chosen node, the port and the target; the banner is the one ssh.go:76 prints, with no colon before the local port |

## Left out

- I/O is left out: the WebSocket dial, TLS settings, `net.Listen`/`Accept`, TCP keep-alive and JSON decoding. Incoming messages are pre-decoded `Event`s, and dial, parse and listen results are parameters.
- Goroutines are left out, along with the `sync.Once`/`done` race between the two pumps and `select {}`. Each pump is modelled as a sequential loop, and which pump closes the pair first is not modelled.
- Real time is left out. The renewal timer is a count of armed timers that fire as events. The 250 ms poll of `GetDevices` is the reader run up to the answer.
- Protocol.Run: a timer firing after the reader loop has ended is not modelled, because events stop at the end of the run. (The code never cancels the timer.)
- MeshRouter.Router.GetDevices: returns None where the source would poll for ever (no answer, or the reader stopped), because liveness is not modelled.
- Session.Normalise: numeric fields arrive as integers, because the `float64` to `int` truncation belongs to JSON decoding. A field of the wrong type is treated like a missing one; the source panics there.
- Printing, `os.Exit` and debug logging are values. `os.Exit(1)` is an `Exit(1, message)` outcome, and a panic is a `Panic` outcome.
- Protocol.UserAuthFrameIsObject: the frame is built without JSON escaping, as the source builds it, so a cookie or token holding `"` yields an ill-formed object. The lemma is about the text as built.
- MeshRouter.Router.TunnelDial: the dialed string is the concatenated relay URL and query. The source re-serialises it with `url.Parse` and `String()`, which would turn a `#` in the cookie or the node id into a fragment. That re-serialisation is not modelled.
- Base64.Utf8: that `Utf8` is injective is not proved. The header round trip is to the bytes `[]byte(s)`.
- Profiles.ProfileStore.RemoveProfile: requires the name to occur at most once. With duplicates, Go's in-loop re-slicing skips entries or panics.
- Relay.TcpToWs: requires each read to fit the 4096-byte buffer, which is the `io.Reader` contract. Bytes returned together with a read error are not modelled; the source drops them too.
- `StopSocket` (internal/meshrouter/meshrouter.go:335-338) only sends a close frame and is not called by the modelled commands.
- The meshcentral package (internal/meshcentral/devices.go, config.go) repeats the router's `nodes` handler, `GetDevices` and `ApplySettings` line for line. It is modelled once, and both paths are cited.
- `filterAndSortDevices` and `searchDevices` are not part of this model. The node the user picks is the `chosen` parameter of `Cli.SshRun`.
- Cli.SshRun: spawning the ssh process and wiring its standard streams are left out. The command ends at the argv.
- The `route` command's own sequence, the cobra flag registration, and the shell and config commands are left out, as are internal/config/config.go (paths, directory creation, reading the configuration file). They are wiring around the modelled operations.

## Findings

| source | as written | input that shows it | evidently intended | confidence | as-written member | corrected member |
|---|---|---|---|---|---|---|
| cmd/ssh.go:76 | the banner prints `via 127.0.0.1%d`, with no colon before the local port | local port 22 prints `via 127.0.0.122`, a different host and no port | `via 127.0.0.1:%d` | high; not executed | Cli.BannerAsWrittenLosesPort | Cli.BannerReadsBack |
