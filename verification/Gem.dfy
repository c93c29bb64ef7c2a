/** The GEM engine: its state and its answer to every host message, as functions. */
module Gem {
  import opened Basics
  import opened Secs
  import opened Hsms
  import Utf8

  datatype CommunicationState = Disabled | EnabledNotCommunicating | EnabledCommunicating

  datatype ControlState = EquipmentOffline | AttemptOnline | HostOffline | OnlineLocal | OnlineRemote

  datatype OnlineMode = Local | Remote

  datatype Alarm = Alarm(text: string, isSet: bool)

  datatype Action =
    | RemoteCommand(command: string, parameters: seq<(string, Item)>)
    | RecipeReceived(ppid: string, body: bytes)
    | ConstantsChanged(changed: seq<(nat, Item)>)
    | GoOnlineRequested
    | GoOfflineRequested
    | TerminalMessage(terminal: nat, text: string)

  datatype State = State(
    device: u16,
    mdln: string,
    softrev: string,
    onlineMode: OnlineMode,
    com: CommunicationState,
    ctrl: ControlState,
    svids: map<nat, Item>,
    ecids: map<nat, Item>,
    alarms: map<nat, Alarm>,
    programs: map<string, bytes>,
    terminal: seq<(nat, string)>,
    dateTime: Option<string>,
    pending: seq<Action>,
    nextId: u32)

  // ----- small readers of items -----

  function U4(n: nat): Item {
    Num(NumKind.U4, [n])
  }

  function AsAscii(i: Item): Option<string> {
    if i.A? then Some(i.text) else None
  }

  function AsciiOr(i: Item, other: string): string {
    if i.A? then i.text else other
  }

  /** The first value of a non-empty item of the given kind. */
  function FirstOf(k: NumKind, i: Item): Option<int> {
    if i.Num? && i.kind == k && i.vals != [] then Some(i.vals[0]) else None
  }

  function AsU4(i: Item): (r: Option<nat>) {
    match FirstOf(NumKind.U4, i)
    case Some(v) => if v >= 0 then Some(v) else None
    case None => None
  }

  function Data(g: State, stream: byte, fn: byte, wBit: bool, system: u32, item: Option<Item>): Message {
    Message(Header(g.device, stream, fn, wBit, 0, system), item)
  }

  // ----- identifiers of equipment-initiated messages -----

  function Next(n: u32): u32 {
    (n + 1) % 0x1_0000_0000
  }

  /** A state change together with the message it built. */
  datatype Built = Built(gem: State, message: Message)

  /** `make_alarm`: records the alarm and builds S5F1; `None` for an undefined alarm. */
  function MakeAlarm(g: State, alid: nat, isSet: bool): Option<Built> {
    if alid !in g.alarms then None else
    var text, id := g.alarms[alid].text, Next(g.nextId);
    var g' := g.(alarms := g.alarms[alid := Alarm(text, isSet)], nextId := id);
    Some(Built(g', Data(g', 5, 1, true, id, Some(L([B([if isSet then 1 else 0]), U4(alid), A(text)])))))
  }

  function ReportItems(reports: seq<(string, Item)>): seq<Item> {
    seq(|reports|, i requires 0 <= i < |reports| => L([A(reports[i].0), reports[i].1]))
  }

  /** `make_event_report`: S6F11 with a data id and, two further on, the system bytes. */
  function MakeEvent(g: State, ceid: nat, reports: seq<(string, Item)>): Built {
    var system := Next(Next(g.nextId));
    var g' := g.(nextId := system);
    Built(g', Data(g', 6, 11, true, system, Some(L([U4(g.nextId), U4(ceid), L(ReportItems(reports))]))))
  }

  // ----- replies -----

  /** A state change together with the reply. */
  datatype Reply = Reply(gem: State, message: Option<Message>)

  function Answer(g: State, stream: byte, fn: byte, system: u32, item: Item): Reply {
    Reply(g, Some(Data(g, stream, fn, false, system, Some(item))))
  }

  function Ack(code: byte): Item {
    B([code])
  }

  /** The smallest element; the maps of the engine are ordered by key. */
  function Smallest(s: set<nat>): (m: nat)
    requires s != {}
    ensures m in s && forall k :: k in s ==> m <= k
  {
    SmallestExists(s);
    var m :| m in s && forall k :: k in s ==> m <= k;
    m
  }

  lemma {:induction false} SmallestExists(s: set<nat>)
    requires s != {}
    ensures exists m :: m in s && forall k :: k in s ==> m <= k
  {
    var x :| x in s;
    if y :| y in s && y < x {
      var rest := s - {x};
      assert y in rest;
      SmallestExists(rest);
      var m :| m in rest && forall k :: k in rest ==> m <= k;
      forall k | k in s ensures m <= k {
        assert k == x || k in rest;
      }
    }
  }

  function ValuesInOrder(m: map<nat, Item>): seq<Item>
    decreases |m|
  {
    if m == map[] then [] else
    assert m.Keys != {};
    var k := Smallest(m.Keys);
    var rest := m - {k};
    assert rest.Keys == m.Keys - {k};
    [m[k]] + ValuesInOrder(rest)
  }

  /** One value per requested id, a placeholder for an unknown or malformed one; everything when
      nothing in particular is asked for. */
  function LookUp(m: map<nat, Item>, req: Option<Item>): seq<Item> {
    if req.Some? && req.value.L? && req.value.items != [] then
      var ids := req.value.items;
      seq(|ids|, i requires 0 <= i < |ids| =>
        match AsU4(ids[i])
        case Some(id) => if id in m then m[id] else Boolean([])
        case None => Boolean([]))
    else
      ValuesInOrder(m)
  }

  /** The constant a well-formed `L[ECID, value]` sets. */
  function Setting(pair: Item): Option<(nat, Item)> {
    if pair.L? && |pair.items| == 2 then
      match AsU4(pair.items[0])
      case Some(ecid) => Some((ecid, pair.items[1]))
      case None => None
    else None
  }

  function Settings(pairs: seq<Item>): seq<(nat, Item)> {
    if pairs == [] then [] else
    (match Setting(pairs[0]) case Some(s) => [s] case None => []) + Settings(pairs[1..])
  }

  function SettingAcks(pairs: seq<Item>): seq<Item> {
    seq(|pairs|, i requires 0 <= i < |pairs| => Num(U1, [if Setting(pairs[i]).Some? then 0 else 1]))
  }

  function ApplySettings(m: map<nat, Item>, settings: seq<(nat, Item)>): map<nat, Item>
    decreases settings
  {
    if settings == [] then m else ApplySettings(m[settings[0].0 := settings[0].1], settings[1..])
  }

  function SetConstants(g: State, system: u32, req: Option<Item>): Reply {
    if req.Some? && req.value.L? then
      var changed := Settings(req.value.items);
      var g' := g.(ecids := ApplySettings(g.ecids, changed),
                   pending := if changed == [] then g.pending else g.pending + [ConstantsChanged(changed)]);
      Answer(g', 2, 16, system, L(SettingAcks(req.value.items)))
    else
      Answer(g, 2, 16, system, L([Num(U1, [1])]))
  }

  function CommandParameters(cps: seq<Item>): seq<(string, Item)> {
    if cps == [] then [] else
    (if cps[0].L? && |cps[0].items| == 2 && cps[0].items[0].A? then [(cps[0].items[0].text, cps[0].items[1])] else [])
      + CommandParameters(cps[1..])
  }

  function DoRemoteCommand(g: State, system: u32, req: Option<Item>): Reply {
    if req.Some? && req.value.L? && req.value.items != [] then
      var parts := req.value.items;
      var command := AsciiOr(parts[0], "");
      var parameters := if |parts| > 1 && parts[1].L? then CommandParameters(parts[1].items) else [];
      var g' := g.(pending := g.pending + [RemoteCommand(command, parameters)]);
      Answer(g', 2, 42, system, L([B([if command == "" then 1 else 0]), L([])]))
    else
      Answer(g, 2, 42, system, L([B([1]), L([])]))
  }

  function GrantLoad(g: State, system: u32, req: Option<Item>): Reply {
    var known := req.Some? && req.value.L? && req.value.items != [] && req.value.items[0].A?
                 && req.value.items[0].text in g.programs;
    Answer(g, 7, 2, system, Ack(if known then 5 else 0))
  }

  /** The program an S7F3 carries, if it is well formed. */
  function Upload(req: Option<Item>): Option<(string, bytes)> {
    if req.Some? && req.value.L? && |req.value.items| == 2 then
      var ppid := AsciiOr(req.value.items[0], "");
      match req.value.items[1]
      case B(body) => Some((ppid, body))
      case A(text) => Some((ppid, Utf8.Encode(text)))
      case _ => None
    else None
  }

  function LoadProgram(g: State, system: u32, req: Option<Item>): Reply {
    match Upload(req)
    case Some((ppid, body)) =>
      var g' := g.(pending := g.pending + [RecipeReceived(ppid, body)], programs := g.programs[ppid := body]);
      Answer(g', 7, 4, system, Ack(0))
    case None => Answer(g, 7, 4, system, Ack(3))
  }

  function SendProgram(g: State, system: u32, req: Option<Item>): Reply {
    var ppid := if req.Some? then AsciiOr(req.value, "") else "";
    Answer(g, 7, 6, system, L([A(ppid), if ppid in g.programs then B(g.programs[ppid]) else A("")]))
  }

  function ShowTerminal(g: State, system: u32, req: Option<Item>): Reply {
    if req.Some? && req.value.L? && |req.value.items| == 2 then
      var first := FirstOf(U1, req.value.items[0]);
      var tid: nat := if first.Some? && first.value >= 0 then first.value else 0;
      var text := AsciiOr(req.value.items[1], "");
      var g' := g.(terminal := g.terminal + [(tid, text)],
                   pending := if text == "" then g.pending else g.pending + [TerminalMessage(tid, text)]);
      Answer(g', 10, 4, system, Ack(0))
    else
      Answer(g, 10, 4, system, Ack(0))
  }

  function Identity(g: State): Item {
    L([A(g.mdln), A(g.softrev)])
  }

  /** `handle_message`. */
  function Handle(g: State, m: Message): Reply {
    var h, system, req := m.header, m.header.system, m.item;
    if h.sType != 0 then Reply(g, None)
    else match (h.stream as int, h.fn as int)
      case (1, 1) => Answer(g, 1, 2, system, Identity(g))
      case (1, 3) => Answer(g, 1, 4, system, L(LookUp(g.svids, req)))
      case (1, 13) => Answer(g.(com := EnabledCommunicating), 1, 14, system, L([Ack(0), Identity(g)]))
      case (1, 15) => Answer(g.(pending := g.pending + [GoOfflineRequested]), 1, 16, system, Ack(0))
      case (1, 17) => Answer(g.(pending := g.pending + [GoOnlineRequested]), 1, 18, system, Ack(0))
      case (2, 13) => Answer(g, 2, 14, system, L(LookUp(g.ecids, req)))
      case (2, 15) => SetConstants(g, system, req)
      case (2, 31) =>
        Answer(if req.Some? && req.value.A? then g.(dateTime := Some(req.value.text)) else g, 2, 32, system, Ack(0))
      case (2, 41) => DoRemoteCommand(g, system, req)
      case (7, 1) => GrantLoad(g, system, req)
      case (7, 3) => LoadProgram(g, system, req)
      case (7, 5) => SendProgram(g, system, req)
      case (10, 3) => ShowTerminal(g, system, req)
      case _ => Reply(g, None)
  }

  /** `operator_request_online`. */
  function RequestOnline(g: State, mode: OnlineMode): State {
    if g.ctrl == EquipmentOffline || g.ctrl == HostOffline || g.ctrl == AttemptOnline
    then g.(ctrl := if mode == Local then OnlineLocal else OnlineRemote)
    else g
  }

  /** `go_offline`. */
  function GoOffline(g: State, byHost: bool): State {
    g.(ctrl := if byHost then HostOffline else EquipmentOffline, com := EnabledNotCommunicating)
  }
}
