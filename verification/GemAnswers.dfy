/** What a host gets in reply to whole messages, in every state the equipment reaches. */
module GemAnswers {
  import opened Basics
  import opened Secs
  import opened Hsms
  import opened Gem300
  import opened Fab
  import opened FabEffects
  import opened Interleaving
  import opened RecipeBooks
  import opened GemProperties
  import Counters
  import Decimals
  import Gem

  predicate Is(m: Message, stream: byte, fn: byte) {
    m.header.sType == 0 && m.header.stream == stream && m.header.fn == fn
  }

  /** The item of the reply to a message, if there is a reply with one. */
  function ReplyItem(f: Fab, m: Message): Option<Item> {
    var r := Serve(f, m).reply;
    if r.Some? then r.value.item else None
  }

  /** The list a message carries. */
  function Listed(m: Message): Option<seq<Item>> {
    if m.item.Some? && m.item.value.L? then Some(m.item.value.items) else None
  }

  // ----- control and communication state -----

  /** Where the equipment is switched to by one message. */
  function SwitchedTo(ctrl: Gem.ControlState, m: Message): Gem.ControlState {
    if Is(m, 1, 15) then Gem.HostOffline
    else if Is(m, 1, 17) then Gem.OnlineRemote
    else ctrl
  }

  function TalkingAs(com: Gem.CommunicationState, m: Message): Gem.CommunicationState {
    if Is(m, 1, 13) then Gem.EnabledCommunicating
    else if Is(m, 1, 15) then Gem.EnabledNotCommunicating
    else com
  }

  function ConstantsAfter(ecids: map<nat, Item>, m: Message): map<nat, Item> {
    if Is(m, 2, 15) && Listed(m).Some? then Gem.ApplySettings(ecids, Gem.Settings(Listed(m).value)) else ecids
  }

  lemma HandleConstants(g: Gem.State, m: Message)
    ensures Gem.Handle(g, m).gem.ecids == ConstantsAfter(g.ecids, m)
  {
    NothingSet(g.ecids);
    hide Gem.LookUp, Gem.ApplySettings, Gem.Settings, Gem.SettingAcks, Gem.CommandParameters, Gem.Upload;
  }

  lemma HandleStates(g: Gem.State, m: Message)
    ensures Gem.Handle(g, m).gem.ctrl == g.ctrl && Gem.Handle(g, m).gem.onlineMode == g.onlineMode
  {
    hide Gem.LookUp, Gem.ApplySettings, Gem.Settings, Gem.SettingAcks, Gem.CommandParameters, Gem.Upload;
  }

  lemma HandleTalking(g: Gem.State, m: Message)
    ensures Gem.Handle(g, m).gem.com == if Is(m, 1, 13) then Gem.EnabledCommunicating else g.com
  {
    hide Gem.LookUp, Gem.ApplySettings, Gem.Settings, Gem.SettingAcks, Gem.CommandParameters, Gem.Upload;
  }

  /** At most one action more, and not one that switches. */
  predicate AddsNoSwitch(p: seq<Gem.Action>, p': seq<Gem.Action>) {
    p' == p || (|p'| == |p| + 1 && p <= p' && !p'[|p|].GoOfflineRequested? && !p'[|p|].GoOnlineRequested?)
  }

  lemma HandlersSwitchNothing(g: Gem.State, system: u32, req: Option<Item>)
    ensures AddsNoSwitch(g.pending, Gem.SetConstants(g, system, req).gem.pending)
    ensures AddsNoSwitch(g.pending, Gem.DoRemoteCommand(g, system, req).gem.pending)
    ensures AddsNoSwitch(g.pending, Gem.LoadProgram(g, system, req).gem.pending)
    ensures AddsNoSwitch(g.pending, Gem.ShowTerminal(g, system, req).gem.pending)
    ensures Gem.GrantLoad(g, system, req).gem == g && Gem.SendProgram(g, system, req).gem == g
  {
    hide Gem.LookUp, Gem.ApplySettings, Gem.Settings, Gem.SettingAcks, Gem.CommandParameters, Gem.Upload;
  }

  lemma HandleGoesOffline(g: Gem.State, m: Message)
    requires Is(m, 1, 15)
    ensures Gem.Handle(g, m).gem.pending == g.pending + [Gem.GoOfflineRequested]
  {
    hide Gem.SetConstants, Gem.DoRemoteCommand, Gem.LoadProgram, Gem.ShowTerminal, Gem.GrantLoad, Gem.SendProgram, Gem.LookUp;
  }

  lemma HandleGoesOnline(g: Gem.State, m: Message)
    requires Is(m, 1, 17)
    ensures Gem.Handle(g, m).gem.pending == g.pending + [Gem.GoOnlineRequested]
  {
    hide Gem.SetConstants, Gem.DoRemoteCommand, Gem.LoadProgram, Gem.ShowTerminal, Gem.GrantLoad, Gem.SendProgram, Gem.LookUp;
  }

  lemma HandleStaysAs(g: Gem.State, m: Message)
    requires !Is(m, 1, 15) && !Is(m, 1, 17)
    ensures AddsNoSwitch(g.pending, Gem.Handle(g, m).gem.pending)
  {
    HandlersSwitchNothing(g, m.header.system, m.item);
    hide AddsNoSwitch;
    assert AddsNoSwitch(g.pending, g.pending) by { NothingAdded(g.pending); }
    hide Gem.SetConstants, Gem.DoRemoteCommand, Gem.LoadProgram, Gem.ShowTerminal, Gem.GrantLoad, Gem.SendProgram, Gem.LookUp;
  }

  lemma NothingAdded(p: seq<Gem.Action>)
    ensures AddsNoSwitch(p, p)
  {
  }

  lemma HandleActions(g: Gem.State, m: Message)
    requires g.pending == []
    ensures var p := Gem.Handle(g, m).gem.pending;
            && |p| <= 1
            && (p != [] && p[0].GoOfflineRequested? <==> Is(m, 1, 15))
            && (p != [] && p[0].GoOnlineRequested? <==> Is(m, 1, 17))
  {
    hide Gem.Handle;
    if Is(m, 1, 15) {
      HandleGoesOffline(g, m);
    } else if Is(m, 1, 17) {
      HandleGoesOnline(g, m);
    } else {
      HandleStaysAs(g, m);
    }
  }

  lemma ActSwitches(a: Acted, action: Gem.Action)
    ensures var g, g' := a.fab.gem, Act(a, action).fab.gem;
            && g'.ecids == g.ecids && g'.onlineMode == g.onlineMode && g'.svids == g.svids && g'.pending == g.pending
            && g'.mdln == g.mdln && g'.softrev == g.softrev
            && (if action.GoOfflineRequested? then g'.ctrl == Gem.HostOffline && g'.com == Gem.EnabledNotCommunicating
                else if action.GoOnlineRequested? then g' == Gem.RequestOnline(g, g.onlineMode)
                else g'.ctrl == g.ctrl && g'.com == g.com)
  {
    hide LowerAll, JobParameter, ApplyRecipe;
  }

  /** The control states a host can bring about. */
  predicate Controlled(g: Gem.State) {
    && g.onlineMode == Gem.Remote && g.pending == [] && Telling(g)
    && (g.ctrl == Gem.EquipmentOffline || g.ctrl == Gem.HostOffline || g.ctrl == Gem.OnlineRemote)
  }

  /** What a message leaves the equipment switched to, and what it leaves set. */
  lemma ServeSwitches(f: Fab, m: Message)
    requires Controlled(f.gem)
    ensures var g := Serve(f, m).fab.gem;
            && Controlled(g) && g.ctrl == SwitchedTo(f.gem.ctrl, m) && g.com == TalkingAs(f.gem.com, m)
            && g.ecids == ConstantsAfter(f.gem.ecids, m)
            && g.mdln == f.gem.mdln && g.softrev == f.gem.softrev
  {
    hide Gem.Handle, ConstantsAfter, UpdateStatus, Act, ActAll;
    HandleConstants(f.gem, m);
    HandleStates(f.gem, m);
    Counters.HandleKeeps(f.gem, m);
    Counters.HandleKeeps(f.gem, m);
    HandleTalking(f.gem, m);
    HandleActions(f.gem, m);
    var g := Gem.Handle(f.gem, m).gem;
    var a := Acted(f.(gem := g.(pending := [])), None);
    ActOnOne(a, g.pending);
    if g.pending != [] {
      ActSwitches(a, g.pending[0]);
    }
    StatusTold(ActAll(a, g.pending).fab.gem);
  }

  lemma ActOnOne(a: Acted, actions: seq<Gem.Action>)
    requires |actions| <= 1
    ensures ActAll(a, actions) == if actions == [] then a else Act(a, actions[0])
  {
    hide Act;
    assert actions != [] ==> actions[1..] == [];
  }

  lemma NextControlled(s: System, a: Step)
    requires Controlled(s.fab.gem)
    ensures Controlled(Next(s, a).fab.gem)
    ensures Next(s, a).fab.gem.mdln == s.fab.gem.mdln && Next(s, a).fab.gem.softrev == s.fab.gem.softrev
    ensures !(a.Deliver? && Is(a.message, 2, 15)) ==> Next(s, a).fab.gem.ecids == s.fab.gem.ecids
  {
    hide RunnerStep, Stage, Serve;
    match a
    case Connect(_) =>
    case Stop(_, _) =>
    case StageLot(lot, ws, pj, recipe) => StageRecipes(s.fab, lot, ws, pj, recipe);
    case Deliver(_, m) => ServeSwitches(s.fab, m);
    case Advance(c, accepts) =>
      if c in s.connections && Running(s.connections[c].pc) && WellPlaced(s.connections[c].pc) {
        RunnerRecipes(s.fab, s.connections[c].pc, accepts);
      }
  }

  /** No message that sets constants arrives. */
  predicate NoSettings(steps: seq<Step>) {
    forall i :: 0 <= i < |steps| ==> !(steps[i].Deliver? && Is(steps[i].message, 2, 15))
  }

  lemma {:induction false} RunControlled(s: System, steps: seq<Step>)
    requires Controlled(s.fab.gem)
    ensures Controlled(Run(s, steps).fab.gem)
    ensures Run(s, steps).fab.gem.mdln == s.fab.gem.mdln && Run(s, steps).fab.gem.softrev == s.fab.gem.softrev
    ensures NoSettings(steps) ==> Run(s, steps).fab.gem.ecids == s.fab.gem.ecids
    decreases steps
  {
    hide Next, Controlled;
    if steps != [] {
      NextControlled(s, steps[0]);
      RunControlled(Next(s, steps[0]), steps[1..]);
      assert NoSettings(steps) ==> NoSettings(steps[1..]);
    }
  }

  lemma ReachableControlled(device: u16, mdln: string, softrev: string, steps: seq<Step>)
    ensures var g := Run(Initial(device, mdln, softrev), steps).fab.gem;
            Controlled(g) && g.mdln == mdln && g.softrev == softrev
  {
    var s := Initial(device, mdln, softrev);
    assert Controlled(s.fab.gem) && s.fab.gem.mdln == mdln && s.fab.gem.softrev == softrev;
    hide Initial, Controlled, Run;
    RunControlled(s, steps);
  }

  // ----- status requests -----

  /** What status variable `id` is, in words of the equipment's state. */
  function StatusOf(f: Fab, id: nat): Item {
    if id == 2001 then A("")
    else if id == 2002 then
      A(match f.gem.ctrl
        case EquipmentOffline => "EquipmentOffline"
        case AttemptOnline => "AttemptOnline"
        case HostOffline => "HostOffline"
        case OnlineLocal => "OnlineLocal"
        case OnlineRemote => "OnlineRemote")
    else if id == 2003 then
      A(match f.gem.com
        case Disabled => "Disabled"
        case EnabledNotCommunicating => "NotCommunicating"
        case EnabledCommunicating => "Communicating")
    else if id == 2004 then Num(U4, [|Counters.CompletedJobs(f.jobs)| % 0x1_0000_0000])
    else Boolean([])
  }

  lemma StatusHeld(device: u16, mdln: string, softrev: string, steps: seq<Step>)
    ensures var f := Run(Initial(device, mdln, softrev), steps).fab;
            && f.gem.svids.Keys == {2001, 2002, 2003, 2004}
            && forall id :: id in f.gem.svids ==> f.gem.svids[id] == StatusOf(f, id)
  {
    ReachableControlled(device, mdln, softrev, steps);
    Counters.LotsProcessedCountsCompletedJobs(device, mdln, softrev, steps);
    hide Run, Initial;
  }

  lemma HandleOnStatus(g: Gem.State, m: Message)
    requires Is(m, 1, 3)
    ensures Gem.Handle(g, m).message.Some? && Gem.Handle(g, m).message.value.item == Some(L(Gem.LookUp(g.svids, m.item)))
  {
    hide Gem.LookUp;
  }

  lemma ReplyIsHandled(f: Fab, m: Message)
    ensures Serve(f, m).reply == Gem.Handle(f.gem, m).message
  {
    hide Gem.Handle, ActAll, UpdateStatus;
  }

  /** A value for each identifier asked for, in order; a placeholder for any that is not an identifier. */
  predicate Answers(ids: seq<Item>, values: seq<Item>, of: nat -> Item) {
    && |values| == |ids|
    && forall i :: 0 <= i < |ids| ==>
         values[i] == match Gem.AsU4(ids[i]) case Some(id) => of(id) case None => Boolean([])
  }

  /** In every reachable state S1F3 reads the status variables it asks for: the number of completed jobs, and
      the control and communication states by name. */
  lemma StatusAnswered(device: u16, mdln: string, softrev: string, steps: seq<Step>, m: Message)
    requires Is(m, 1, 3) && Listed(m).Some? && Listed(m).value != []
    ensures var f := Run(Initial(device, mdln, softrev), steps).fab;
            var item := ReplyItem(f, m);
            item.Some? && item.value.L? && Answers(Listed(m).value, item.value.items, (id: nat) => StatusOf(f, id))
  {
    var f := Run(Initial(device, mdln, softrev), steps).fab;
    StatusHeld(device, mdln, softrev, steps);
    HandleOnStatus(f.gem, m);
    ReplyIsHandled(f, m);
    hide Run, Initial, Serve, Gem.Handle, StatusOf, Gem.AsU4;
    assert forall id: nat :: id !in f.gem.svids ==> StatusOf(f, id) == Boolean([]) by { OtherStatus(f); }
  }

  lemma OtherStatus(f: Fab)
    ensures forall id: nat :: id !in {2001, 2002, 2003, 2004} ==> StatusOf(f, id) == Boolean([])
  {
  }

  /** When it asks for nothing in particular it reads all four, in ascending order. */
  lemma AllStatusListed(device: u16, mdln: string, softrev: string, steps: seq<Step>, m: Message)
    requires Is(m, 1, 3) && (Listed(m).Some? ==> Listed(m).value == [])
    ensures var f := Run(Initial(device, mdln, softrev), steps).fab;
            ReplyItem(f, m) == Some(L([StatusOf(f, 2001), StatusOf(f, 2002), StatusOf(f, 2003), StatusOf(f, 2004)]))
  {
    var f := Run(Initial(device, mdln, softrev), steps).fab;
    StatusHeld(device, mdln, softrev, steps);
    HandleOnStatus(f.gem, m);
    ReplyIsHandled(f, m);
    assert Gem.LookUp(f.gem.svids, m.item) == Gem.ValuesInOrder(f.gem.svids);
    hide Run, Initial, Serve, Gem.Handle, StatusOf, Gem.ValuesInOrder, Gem.LookUp;
    var keys := EverythingIsListedInOrder(f.gem.svids);
    FourValues(keys, f.gem.svids, Gem.ValuesInOrder(f.gem.svids));
  }

  lemma FourValues(keys: seq<nat>, m: map<nat, Item>, values: seq<Item>)
    requires Lists(keys, m, values) && m.Keys == {2001, 2002, 2003, 2004}
    ensures values == [m[2001], m[2002], m[2003], m[2004]]
  {
    assert forall k :: k in keys <==> k in m.Keys;
    FourKeys(keys);
  }

  lemma FourKeys(keys: seq<nat>)
    requires Ascending(keys) && forall k :: k in keys <==> k in {2001, 2002, 2003, 2004}
    ensures keys == [2001, 2002, 2003, 2004]
  {
    assert 2001 in keys && 2002 in keys && 2003 in keys && 2004 in keys;
    StandsAt(keys, 0, 2001);
    StandsAt(keys, 1, 2002);
    StandsAt(keys, 2, 2003);
    StandsAt(keys, 3, 2004);
    var last := keys[|keys| - 1];
    assert last in keys;
  }

  /** The next key stands in the next place when there is none between. */
  lemma StandsAt(keys: seq<nat>, i: nat, k: nat)
    requires Ascending(keys) && i <= |keys| && k in keys && (i > 0 ==> keys[i - 1] < k)
    requires forall j :: j in keys ==> j >= k || (i > 0 && j <= keys[i - 1])
    ensures i < |keys| && keys[i] == k
  {
    forall j | 0 <= j < i ensures keys[j] < k {
      assert keys[j] <= keys[i - 1];
    }
    forall j | i < j < |keys| ensures keys[j] > k {
      assert keys[i] in keys && keys[i] < keys[j];
      assert i > 0 ==> keys[i - 1] < keys[i];
    }
    var a :| 0 <= a < |keys| && keys[a] == k;
  }

  /** After a message the control state a status request reads is the one the message switched to. */
  lemma SwitchedByMessages(device: u16, mdln: string, softrev: string, steps: seq<Step>, m: Message)
    ensures var f := Run(Initial(device, mdln, softrev), steps).fab;
            var g := Serve(f, m).fab.gem;
            g.ctrl == SwitchedTo(f.gem.ctrl, m) && g.com == TalkingAs(f.gem.com, m)
  {
    ReachableControlled(device, mdln, softrev, steps);
    hide Run, Initial, Serve;
    ServeSwitches(Run(Initial(device, mdln, softrev), steps).fab, m);
  }

  // ----- equipment constants -----

  /** A pair that sets a constant: an identifier and a value. */
  predicate Sets(pair: Item) {
    && pair.L? && |pair.items| == 2 && pair.items[0].Num? && pair.items[0].kind == U4 && pair.items[0].vals != []
    && pair.items[0].vals[0] >= 0
  }

  /** The value the last pair for a constant gives it. */
  function LastGiven(pairs: seq<Item>, id: nat): Option<Item> {
    if pairs == [] then None else
    var p := pairs[|pairs| - 1];
    if Sets(p) && p.items[0].vals[0] == id then Some(p.items[1]) else LastGiven(pairs[..|pairs| - 1], id)
  }

  lemma {:induction false} SettingsAppend(pairs: seq<Item>, p: Item)
    ensures Gem.Settings(pairs + [p]) == Gem.Settings(pairs) + if Sets(p) then [(p.items[0].vals[0], p.items[1])] else []
  {
    if pairs == [] {
      assert [p][1..] == [] && [] + [p] == [p];
    } else {
      assert (pairs + [p])[1..] == pairs[1..] + [p];
      SettingsAppend(pairs[1..], p);
    }
  }

  lemma {:induction false} LastGivenIs(pairs: seq<Item>, id: nat)
    ensures LastSetting(Gem.Settings(pairs), id) == LastGiven(pairs, id)
  {
    if pairs != [] {
      var front, p := pairs[..|pairs| - 1], pairs[|pairs| - 1];
      assert pairs == front + [p];
      SettingsAppend(front, p);
      LastGivenIs(front, id);
      hide Gem.Settings;
      var ss := Gem.Settings(front);
      if Sets(p) {
        assert (ss + [(p.items[0].vals[0], p.items[1])])[..|ss|] == ss;
      } else {
        assert ss + [] == ss;
      }
    }
  }

  lemma HandleOnConstants(g: Gem.State, m: Message)
    ensures Is(m, 2, 13) ==>
              Gem.Handle(g, m).message.Some? && Gem.Handle(g, m).message.value.item == Some(L(Gem.LookUp(g.ecids, m.item)))
    ensures Is(m, 2, 15) ==>
              Gem.Handle(g, m).message.Some? && Gem.Handle(g, m).message.value.item
              == Some(L(match Listed(m) case Some(pairs) => Gem.SettingAcks(pairs) case None => [Num(U1, [1])]))
  {
    hide Gem.LookUp, Gem.SettingAcks, Gem.Settings, Gem.ApplySettings;
  }

  /** S2F15 is acknowledged pair by pair: 0 for a pair that sets a constant, 1 for any other. */
  lemma SettingsAcknowledged(f: Fab, m: Message)
    requires Is(m, 2, 15)
    ensures var item := ReplyItem(f, m);
            && item.Some? && item.value.L?
            && (Listed(m).None? ==> item.value.items == [Num(U1, [1])])
            && (Listed(m).Some? ==>
                  && |item.value.items| == |Listed(m).value|
                  && forall i :: 0 <= i < |Listed(m).value| ==>
                       item.value.items[i] == Num(U1, [if Sets(Listed(m).value[i]) then 0 else 1]))
  {
    HandleOnConstants(f.gem, m);
    ReplyIsHandled(f, m);
    hide Serve, Gem.Handle;
  }

  /** What S2F15 sets, S2F13 reads: after any further run in which nothing is set, a constant reads as the
      last pair for it gave it, and every other one as before. */
  lemma ConstantsReadBackLater(device: u16, mdln: string, softrev: string, steps: seq<Step>, c: nat, setting: Message,
                               more: seq<Step>, ask: Message, id: u32)
    requires Is(setting, 2, 15) && Listed(setting).Some? && Is(ask, 2, 13) && ask.item == Some(L([Gem.U4(id)])) && NoSettings(more)
    requires var s := Run(Initial(device, mdln, softrev), steps); c in s.connections && s.connections[c].pc == Serving
    ensures var s := Run(Initial(device, mdln, softrev), steps);
            var s' := Run(Next(s, Deliver(c, setting)), more);
            ReplyItem(s'.fab, ask) == Some(L([
              match LastGiven(Listed(setting).value, id)
              case Some(v) => v
              case None => if id in s.fab.gem.ecids then s.fab.gem.ecids[id] else Boolean([])]))
  {
    var s := Run(Initial(device, mdln, softrev), steps);
    ReachableControlled(device, mdln, softrev, steps);
    var s1 := Next(s, Deliver(c, setting));
    assert s1.fab == Serve(s.fab, setting).fab by { hide Serve; }
    hide Run, Initial, Serve, Next, Controlled, Gem.Settings, Gem.ApplySettings, Gem.LookUp, Gem.Handle, LastGiven, LastSetting;
    ServeSwitches(s.fab, setting);
    RunControlled(s1, more);
    var s' := Run(s1, more);
    ApplyLast(s.fab.gem.ecids, Gem.Settings(Listed(setting).value), id);
    LastGivenIs(Listed(setting).value, id);
    HandleOnConstants(s'.fab.gem, ask);
    ReplyIsHandled(s'.fab, ask);
    LookUpOne(s'.fab.gem.ecids, id);
  }

  // ----- process programs -----

  lemma HandleOnPrograms(g: Gem.State, m: Message)
    ensures Is(m, 7, 5) ==> Gem.Handle(g, m).message == Gem.SendProgram(g, m.header.system, m.item).message
    ensures Is(m, 7, 1) ==> Gem.Handle(g, m).message == Gem.GrantLoad(g, m.header.system, m.item).message
    ensures Is(m, 7, 3) ==> Gem.Handle(g, m).message.Some? && Gem.Handle(g, m).message.value.item
                            == Some(B([if UploadOf(m) == [] then 3 else 0]))
  {
    hide Gem.Upload;
  }

  /** In every reachable state: S7F5 reads the latest accepted upload under a name, or empty text; S7F1 is
      told 5 exactly when there has been one; and S7F3 is acknowledged with 0 exactly when it is one. */
  lemma ProgramsAnswered(device: u16, mdln: string, softrev: string, steps: seq<Step>, m: Message, ppid: Id)
    ensures var s := Run(Initial(device, mdln, softrev), steps);
            var bodies := BodiesFor(s.uploads, ppid);
            && (Is(m, 7, 5) && m.item == Some(A(ppid)) ==>
                  ReplyItem(s.fab, m) == Some(L([A(ppid), if bodies == [] then A("") else B(bodies[|bodies| - 1])])))
            && (Is(m, 7, 1) && Listed(m).Some? && Listed(m).value != [] && Listed(m).value[0] == A(ppid) ==>
                  ReplyItem(s.fab, m) == Some(B([if bodies == [] then 0 else 5])))
            && (Is(m, 7, 3) ==> ReplyItem(s.fab, m) == Some(B([if UploadOf(m) == [] then 3 else 0])))
  {
    var s := Run(Initial(device, mdln, softrev), steps);
    ProgramsAndRecipesAgree(device, mdln, softrev, steps, ppid);
    DownloadReturnsLatestUpload(device, mdln, softrev, steps, m.header.system, ppid);
    HandleOnPrograms(s.fab.gem, m);
    ReplyIsHandled(s.fab, m);
    hide Run, Initial, BodiesFor, Serve, Gem.Handle, UploadOf;
  }

  // ----- the other replies -----

  /** Identity, clock, commands and terminal. */
  lemma OtherReplies(f: Fab, m: Message)
    ensures Is(m, 1, 1) ==> ReplyItem(f, m) == Some(L([A(f.gem.mdln), A(f.gem.softrev)]))
    ensures Is(m, 1, 13) ==> ReplyItem(f, m) == Some(L([B([0]), L([A(f.gem.mdln), A(f.gem.softrev)])]))
    ensures Is(m, 1, 15) || Is(m, 1, 17) || Is(m, 2, 31) || Is(m, 10, 3) ==> ReplyItem(f, m) == Some(B([0]))
    ensures Is(m, 2, 41) ==>
              ReplyItem(f, m) == Some(L([
                B([if Listed(m).Some? && Listed(m).value != [] && Gem.AsciiOr(Listed(m).value[0], "") != "" then 0 else 1]), L([])]))
  {
    ReplyIsHandled(f, m);
    hide Serve;
    hide Gem.LookUp, Gem.ApplySettings, Gem.Settings, Gem.SettingAcks, Gem.CommandParameters, Gem.Upload;
  }

  /** Nothing is said to any message but these thirteen. */
  lemma RepliesExactly(f: Fab, m: Message)
    ensures Serve(f, m).reply.Some? <==>
              m.header.sType == 0 && (m.header.stream as int, m.header.fn as int) in
                {(1, 1), (1, 3), (1, 13), (1, 15), (1, 17), (2, 13), (2, 15), (2, 31), (2, 41), (7, 1), (7, 3), (7, 5), (10, 3)}
  {
    ReplyIsHandled(f, m);
    hide Serve;
    hide Gem.LookUp, Gem.ApplySettings, Gem.Settings, Gem.SettingAcks, Gem.CommandParameters, Gem.Upload;
  }

  /** Every reply comes from the equipment's own device, on the request's stream, with the next function and the
      request's system bytes, and asks for no reply itself. */
  lemma ReplyHeader(f: Fab, m: Message)
    ensures var r := Serve(f, m).reply;
            r.Some? ==> m.header.fn < 0xFF && r.value.header == Header(f.gem.device, m.header.stream, m.header.fn + 1, false, 0, m.header.system)
  {
    ReplyIsHandled(f, m);
    hide Serve;
    hide Gem.LookUp, Gem.ApplySettings, Gem.Settings, Gem.SettingAcks, Gem.CommandParameters, Gem.Upload;
  }

  /** The clock text any message leaves behind. */
  lemma ClockText(g: Gem.State, m: Message)
    ensures Gem.Handle(g, m).gem.dateTime ==
              if Is(m, 2, 31) && m.item.Some? && m.item.value.A? then Some(m.item.value.text) else g.dateTime
  {
    hide Gem.LookUp, Gem.ApplySettings, Gem.Settings, Gem.SettingAcks, Gem.CommandParameters, Gem.Upload;
  }

  /** The lines on the terminal after any message. */
  lemma TerminalLines(g: Gem.State, m: Message)
    ensures Gem.Handle(g, m).gem.terminal ==
              if Is(m, 10, 3) && Listed(m).Some? && |Listed(m).value| == 2 then
                var first := Listed(m).value[0];
                g.terminal + [(if first.Num? && first.kind == U1 && first.vals != [] && first.vals[0] >= 0 then first.vals[0] else 0,
                               if Listed(m).value[1].A? then Listed(m).value[1].text else "")]
              else g.terminal
  {
    hide Gem.LookUp, Gem.ApplySettings, Gem.Settings, Gem.SettingAcks, Gem.CommandParameters, Gem.Upload;
  }

  // ----- events and alarms -----

  /** An event report as it goes out: S6F11 asking for a reply, with the data id, the event, and its subject and
      note under their names; the system bytes are two further on. */
  lemma EventMessage(g: Gem.State, ceid: nat, subject: string, note: string)
    requires g.nextId + 2 < 0x1_0000_0000
    ensures EventFor(g, ceid, subject, note) == Gem.Built(
              g.(nextId := g.nextId + 2),
              Message(Header(g.device, 6, 11, true, 0, g.nextId + 2),
                      Some(L([Num(U4, [g.nextId]), Num(U4, [ceid]),
                              L([L([A("SubjectID"), A(subject)]), L([A("Note"), A(note)])])]))))
  {
    assert Gem.ReportItems([("SubjectID", A(subject)), ("Note", A(note))])
           == [L([A("SubjectID"), A(subject)]), L([A("Note"), A(note)])];
  }

  /** A wafer move as it goes out: the wafer and both places by name. */
  lemma MoveMessage(f: Fab, wafer: Id, to: Location)
    requires f.gem.nextId + 2 < 0x1_0000_0000 && wafer in f.wafers
    ensures MoveWafer(f, wafer, to).send == [
              Message(Header(f.gem.device, 6, 11, true, 0, f.gem.nextId + 2),
                      Some(L([Num(U4, [f.gem.nextId]), Num(U4, [5001]),
                              L([L([A("SubstrateID"), A(wafer)]),
                                 L([A("FromLocation"), A(FormatLocation(f.wafers[wafer].location))]),
                                 L([A("ToLocation"), A(FormatLocation(to))])])])))]
  {
    var from := FormatLocation(f.wafers[wafer].location);
    assert Gem.ReportItems([("SubstrateID", A(wafer)), ("FromLocation", A(from)), ("ToLocation", A(FormatLocation(to)))])
           == [L([A("SubstrateID"), A(wafer)]), L([A("FromLocation"), A(from)]), L([A("ToLocation"), A(FormatLocation(to))])];
    hide FormatLocation;
  }

  /** The places a wafer of a job passes through. */
  lemma PlacesByName(carrier: Option<Id>)
    ensures FormatLocation(Port(1, carrier)) == "Port1" && FormatLocation(LITHO) == "Chamber(CH-LITHO)"
    ensures FormatLocation(Fixed) == "Fixed"
  {
    assert Decimals.Print(1) == "1";
    assert "Port" + "1" == "Port1" && "Chamber(" + "CH-LITHO" + ")" == "Chamber(CH-LITHO)";
  }

  /** An alarm as it goes out: S5F1 with whether it is set, its number and its text. */
  lemma AlarmMessage(g: Gem.State, alid: nat)
    requires g.nextId + 1 < 0x1_0000_0000 && alid in g.alarms
    ensures Gem.MakeAlarm(g, alid, true) == Some(Gem.Built(
              g.(alarms := g.alarms[alid := Gem.Alarm(g.alarms[alid].text, true)], nextId := g.nextId + 1),
              Message(Header(g.device, 5, 1, true, 0, g.nextId + 1),
                      Some(L([B([1]), Num(U4, [alid]), A(g.alarms[alid].text)])))))
  {
  }
}
