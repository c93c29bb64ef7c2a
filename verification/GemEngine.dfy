/** The GEM engine as the object it is: fields that every message and report updates in place. */
module GemEngine {
  import opened Basics
  import opened Secs
  import opened Hsms
  import Gem
  import Utf8

  class GemEquipment {
    const device: u16
    const mdln: string
    const softrev: string
    const onlineMode: Gem.OnlineMode
    var com: Gem.CommunicationState
    var ctrl: Gem.ControlState
    var svids: map<nat, Item>
    var ecids: map<nat, Item>
    var alarms: map<nat, Gem.Alarm>
    var programs: map<string, bytes>
    var terminal: seq<(nat, string)>
    var dateTime: Option<string>
    var pending: seq<Gem.Action>
    var nextId: u32

    function View(): Gem.State
      reads this
    {
      Gem.State(device, mdln, softrev, onlineMode, com, ctrl, svids, ecids, alarms, programs, terminal, dateTime,
                pending, nextId)
    }

    constructor (device: u16, mdln: string, softrev: string)
      ensures View() == Gem.State(device, mdln, softrev, Gem.Remote, Gem.EnabledNotCommunicating, Gem.EquipmentOffline,
                                  map[], map[], map[], map[], [], None, [], 1)
    {
      this.device, this.mdln, this.softrev, onlineMode := device, mdln, softrev, Gem.Remote;
      com, ctrl := Gem.EnabledNotCommunicating, Gem.EquipmentOffline;
      svids, ecids, alarms, programs := map[], map[], map[], map[];
      terminal, dateTime, pending, nextId := [], None, [], 1;
    }

    method DefineSvid(svid: nat, value: Item)
      modifies `svids
      ensures svids == old(svids)[svid := value]
    {
      svids := svids[svid := value];
    }

    method DefineEcid(ecid: nat, value: Item)
      modifies `ecids
      ensures ecids == old(ecids)[ecid := value]
    {
      ecids := ecids[ecid := value];
    }

    method DefineAlid(alid: nat, text: string)
      modifies `alarms
      ensures alarms == old(alarms)[alid := Gem.Alarm(text, false)]
    {
      alarms := alarms[alid := Gem.Alarm(text, false)];
    }

    method OperatorRequestOnline(mode: Gem.OnlineMode)
      modifies `ctrl
      ensures View() == Gem.RequestOnline(old(View()), mode)
    {
      if ctrl == Gem.EquipmentOffline || ctrl == Gem.HostOffline || ctrl == Gem.AttemptOnline {
        ctrl := if mode == Gem.Local then Gem.OnlineLocal else Gem.OnlineRemote;
      }
    }

    method TakeOffline(byHost: bool)
      modifies `ctrl, `com
      ensures View() == Gem.GoOffline(old(View()), byHost)
    {
      ctrl := if byHost then Gem.HostOffline else Gem.EquipmentOffline;
      com := Gem.EnabledNotCommunicating;
    }

    /** `next_system`. */
    method NextSystem() returns (system: u32)
      modifies `nextId
      ensures system == nextId == Gem.Next(old(nextId))
    {
      nextId := (nextId + 1) % 0x1_0000_0000;
      system := nextId;
    }

    method MakeAlarm(alid: nat, isSet: bool) returns (r: Option<Message>)
      modifies `alarms, `nextId
      ensures match Gem.MakeAlarm(old(View()), alid, isSet)
              case None => r == None && View() == old(View())
              case Some(built) => r == Some(built.message) && View() == built.gem
    {
      if alid !in alarms {
        return None;
      }
      var text := alarms[alid].text;
      alarms := alarms[alid := Gem.Alarm(text, isSet)];
      var system := NextSystem();
      r := Some(Gem.Data(View(), 5, 1, true, system, Some(L([B([if isSet then 1 else 0]), Gem.U4(alid), A(text)]))));
    }

    method MakeEventReport(ceid: nat, reports: seq<(string, Item)>) returns (m: Message)
      modifies `nextId
      ensures Gem.Built(View(), m) == Gem.MakeEvent(old(View()), ceid, reports)
    {
      var dataId := nextId;
      nextId := (nextId + 1) % 0x1_0000_0000;
      var items := Gem.ReportItems(reports);
      var system := NextSystem();
      m := Gem.Data(View(), 6, 11, true, system, Some(L([Gem.U4(dataId), Gem.U4(ceid), L(items)])));
    }

    /** `take_actions`. */
    method TakeActions() returns (actions: seq<Gem.Action>)
      modifies `pending
      ensures actions == old(pending) && pending == []
    {
      actions := pending;
      pending := [];
    }

    /** S2F15: each well-formed pair is stored as it is met, and acknowledged on its own. */
    method NewEquipmentConstants(system: u32, req: Option<Item>) returns (reply: Message)
      modifies `ecids, `pending
      ensures Gem.Reply(View(), Some(reply)) == Gem.SetConstants(old(View()), system, req)
    {
      hide Gem.Settings, Gem.ApplySettings, Gem.SettingAcks;
      var acks: seq<Item> := [Num(U1, [1])];
      var changed: seq<(nat, Item)> := [];
      if req.Some? && req.value.L? {
        acks, changed := StorePairs(req.value.items);
      }
      if changed != [] {
        pending := pending + [Gem.ConstantsChanged(changed)];
      }
      reply := Gem.Data(View(), 2, 16, false, system, Some(L(acks)));
    }

    /** The loop over the pairs. */
    method StorePairs(pairs: seq<Item>) returns (acks: seq<Item>, changed: seq<(nat, Item)>)
      modifies `ecids
      ensures acks == Gem.SettingAcks(pairs) && changed == Gem.Settings(pairs)
      ensures ecids == Gem.ApplySettings(old(ecids), changed)
    {
      hide Gem.Settings, Gem.ApplySettings, Gem.SettingAcks, Gem.Setting;
      acks, changed := [], [];
      SettingsStart(old(ecids));
      var i := 0;
      while i < |pairs|
        invariant 0 <= i <= |pairs|
        invariant acks == Gem.SettingAcks(pairs[..i]) && changed == Gem.Settings(pairs[..i])
        invariant ecids == Gem.ApplySettings(old(ecids), changed)
      {
        var setting := Gem.Setting(pairs[i]);
        assert pairs[..i + 1] == pairs[..i] + [pairs[i]];
        SettingsStep(old(ecids), pairs[..i], pairs[i]);
        if setting.Some? {
          ecids := ecids[setting.value.0 := setting.value.1];
          changed := changed + [setting.value];
          acks := acks + [Num(U1, [0])];
        } else {
          acks := acks + [Num(U1, [1])];
        }
        i := i + 1;
      }
      assert pairs[..i] == pairs;
    }

    /** S2F41. */
    method RemoteCommand(system: u32, req: Option<Item>) returns (reply: Message)
      modifies `pending
      ensures Gem.Reply(View(), Some(reply)) == Gem.DoRemoteCommand(old(View()), system, req)
    {
      var hcack: byte := 1;
      if req.Some? && req.value.L? && req.value.items != [] {
        var parts := req.value.items;
        var command := Gem.AsciiOr(parts[0], "");
        var parameters := if |parts| > 1 && parts[1].L? then Gem.CommandParameters(parts[1].items) else [];
        hcack := if command == "" then 1 else 0;
        pending := pending + [Gem.RemoteCommand(command, parameters)];
      }
      reply := Gem.Data(View(), 2, 42, false, system, Some(L([B([hcack]), L([])])));
    }

    /** S7F3. */
    method ProcessProgram(system: u32, req: Option<Item>) returns (reply: Message)
      modifies `pending, `programs
      ensures Gem.Reply(View(), Some(reply)) == Gem.LoadProgram(old(View()), system, req)
    {
      var ack: byte := 3;
      if req.Some? && req.value.L? && |req.value.items| == 2 {
        var parts := req.value.items;
        var ppid := Gem.AsciiOr(parts[0], "");
        if parts[1].B? {
          pending := pending + [Gem.RecipeReceived(ppid, parts[1].data)];
          programs := programs[ppid := parts[1].data];
          ack := 0;
        } else if parts[1].A? {
          var body := Utf8.Encode(parts[1].text);
          pending := pending + [Gem.RecipeReceived(ppid, body)];
          programs := programs[ppid := body];
          ack := 0;
        }
      }
      reply := Gem.Data(View(), 7, 4, false, system, Some(Gem.Ack(ack)));
    }

    /** S10F3. */
    method Terminal(system: u32, req: Option<Item>) returns (reply: Message)
      modifies `pending, `terminal
      ensures Gem.Reply(View(), Some(reply)) == Gem.ShowTerminal(old(View()), system, req)
    {
      if req.Some? && req.value.L? && |req.value.items| == 2 {
        var first := Gem.FirstOf(U1, req.value.items[0]);
        var tid: nat := if first.Some? && first.value >= 0 then first.value else 0;
        var text := Gem.AsciiOr(req.value.items[1], "");
        terminal := terminal + [(tid, text)];
        if text != "" {
          pending := pending + [Gem.TerminalMessage(tid, text)];
        }
      }
      reply := Gem.Data(View(), 10, 4, false, system, Some(Gem.Ack(0)));
    }

    /** `handle_message`. */
    method HandleMessage(m: Message) returns (reply: Option<Message>)
      modifies this
      ensures Gem.Reply(View(), reply) == Gem.Handle(old(View()), m)
    {
      hide Gem.SetConstants, Gem.DoRemoteCommand, Gem.LoadProgram, Gem.ShowTerminal, Gem.LookUp;
      var system, req := m.header.system, m.item;
      if m.header.sType != 0 {
        return None;
      }
      var stream, fn := m.header.stream as int, m.header.fn as int;
      var answer: Message;
      if stream == 1 && fn == 1 {
        answer := Gem.Data(View(), 1, 2, false, system, Some(Gem.Identity(View())));
      } else if stream == 1 && fn == 3 {
        answer := Gem.Data(View(), 1, 4, false, system, Some(L(Gem.LookUp(svids, req))));
      } else if stream == 1 && fn == 13 {
        com := Gem.EnabledCommunicating;
        answer := Gem.Data(View(), 1, 14, false, system, Some(L([Gem.Ack(0), Gem.Identity(View())])));
      } else if stream == 1 && fn == 15 {
        pending := pending + [Gem.GoOfflineRequested];
        answer := Gem.Data(View(), 1, 16, false, system, Some(Gem.Ack(0)));
      } else if stream == 1 && fn == 17 {
        pending := pending + [Gem.GoOnlineRequested];
        answer := Gem.Data(View(), 1, 18, false, system, Some(Gem.Ack(0)));
      } else if stream == 2 && fn == 13 {
        answer := Gem.Data(View(), 2, 14, false, system, Some(L(Gem.LookUp(ecids, req))));
      } else if stream == 2 && fn == 15 {
        answer := NewEquipmentConstants(system, req);
      } else if stream == 2 && fn == 31 {
        if req.Some? && req.value.A? {
          dateTime := Some(req.value.text);
        }
        answer := Gem.Data(View(), 2, 32, false, system, Some(Gem.Ack(0)));
      } else if stream == 2 && fn == 41 {
        answer := RemoteCommand(system, req);
      } else if stream == 7 && fn == 1 {
        answer := Gem.GrantLoad(View(), system, req).message.value;
      } else if stream == 7 && fn == 3 {
        answer := ProcessProgram(system, req);
      } else if stream == 7 && fn == 5 {
        answer := Gem.SendProgram(View(), system, req).message.value;
      } else if stream == 10 && fn == 3 {
        answer := Terminal(system, req);
      } else {
        return None;
      }
      reply := Some(answer);
    }
  }

  lemma SettingsStart(m: map<nat, Item>)
    ensures Gem.SettingAcks([]) == [] && Gem.Settings([]) == [] && Gem.ApplySettings(m, []) == m
  {
  }

  lemma {:induction false} ApplyOne(m: map<nat, Item>, settings: seq<(nat, Item)>, s: (nat, Item))
    ensures Gem.ApplySettings(m, settings + [s]) == Gem.ApplySettings(m, settings)[s.0 := s.1]
    decreases settings
  {
    if settings == [] {
      assert [s][1..] == [];
    } else {
      assert (settings + [s])[1..] == settings[1..] + [s];
      ApplyOne(m[settings[0].0 := settings[0].1], settings[1..], s);
    }
  }

  lemma {:induction false} SettingsConcat(x: seq<Item>, y: seq<Item>)
    ensures Gem.Settings(x + y) == Gem.Settings(x) + Gem.Settings(y)
  {
    hide Gem.Setting;
    if x == [] {
      assert x + y == y;
    } else {
      assert (x + y)[1..] == x[1..] + y;
      SettingsConcat(x[1..], y);
    }
  }

  /** What one more pair adds. */
  lemma SettingsStep(m: map<nat, Item>, pairs: seq<Item>, pair: Item)
    ensures var s := Gem.Setting(pair);
            && Gem.SettingAcks(pairs + [pair]) == Gem.SettingAcks(pairs) + [Num(U1, [if s.Some? then 0 else 1])]
            && Gem.Settings(pairs + [pair]) == Gem.Settings(pairs) + (if s.Some? then [s.value] else [])
            && (s.Some? ==> Gem.ApplySettings(m, Gem.Settings(pairs) + [s.value]) == Gem.ApplySettings(m, Gem.Settings(pairs))[s.value.0 := s.value.1])
  {
    SettingsConcat(pairs, [pair]);
    assert [pair][1..] == [];
    var s := Gem.Setting(pair);
    if s.Some? {
      ApplyOne(m, Gem.Settings(pairs), s.value);
    }
    hide Gem.Setting, Gem.ApplySettings;
  }
}
