/**
 Thread mode and notification channels: an invariant kept jointly by the validation of a panel
 and the validation of the guild settings, each handler taken as one step.
 */
module ThreadMode {
  import opened Wrappers

  const SIXTY_DAYS := 60 * 24 * 60 * 60

  datatype Channel = Channel(id: nat, isText: bool)

  datatype Panel = Panel(useThreads: bool, channel: Option<nat>, forceDisabled: bool)

  datatype Settings = Settings(useThreads: bool, channel: Option<nat>)

  datatype AutoClose = AutoClose(enabled: bool, sinceOpen: int, sinceLast: int, onLeave: bool)

  /** What the settings page sends. */
  datatype Form = Form(canView: bool, canType: bool, settings: Settings, autoClose: AutoClose)

  /** A row of auto_close: durations in seconds. */
  datatype StoredAutoClose = StoredAutoClose(enabled: bool, sinceOpen: Option<nat>, sinceLast: Option<nat>,
                                             onLeave: bool)

  datatype Guild = Guild(panels: map<nat, Panel>, settings: Settings)

  // ----- panel validation -----

  /** The first channel with the id decides. */
  predicate IsTextChannel(channels: seq<Channel>, id: nat) {
    channels != [] && if channels[0].id == id then channels[0].isText else IsTextChannel(channels[1..], id)
  }

  /** `globalSettings`: the stored guild settings, None when they cannot be read. */
  predicate NotificationChannelOk(data: Panel, channels: seq<Channel>, globalSettings: Option<Settings>) {
    && (data.channel.Some? ==> IsTextChannel(channels, data.channel.value))
    && (data.useThreads && data.channel.None? ==> globalSettings.Some? && globalSettings.value.channel.Some?)
  }

  method ValidateTicketNotificationChannel(data: Panel, channels: seq<Channel>, globalSettings: Option<Settings>)
    returns (ok: bool)
    ensures ok <==> NotificationChannelOk(data, channels, globalSettings)
  {
    if data.channel.Some? {
      var channelFound := false;
      var i := 0;
      while i < |channels| && !channelFound
        invariant 0 <= i <= |channels|
        invariant channelFound ==> IsTextChannel(channels, data.channel.value)
        invariant !channelFound ==>
                    (IsTextChannel(channels, data.channel.value) <==> IsTextChannel(channels[i..], data.channel.value))
        decreases |channels| - i, !channelFound
      {
        if channels[i].id == data.channel.value {
          channelFound := true;
          if !channels[i].isText {
            return false;
          }
        } else {
          i := i + 1;
        }
      }
      if !channelFound {
        return false;
      }
    }
    if !data.useThreads {
      return true;
    }
    if data.channel.None? {
      return globalSettings.Some? && globalSettings.value.channel.Some?;
    }
    return true;
  }

  /** Place i holds a text channel with the id, and no channel before it has the id. */
  ghost predicate IsFirstText(channels: seq<Channel>, id: nat, i: int) {
    0 <= i < |channels| && channels[i] == Channel(id, true) && forall j | 0 <= j < i :: channels[j].id != id
  }

  /** The id is that of a listed text channel; of several channels with it the first counts. */
  lemma {:induction false} TextChannelIff(channels: seq<Channel>, id: nat)
    ensures IsTextChannel(channels, id) <==> exists i :: IsFirstText(channels, id, i)
  {
    if channels != [] && channels[0].id != id {
      TextChannelIff(channels[1..], id);
      if i :| IsFirstText(channels[1..], id, i) {
        assert forall j | 1 <= j < i + 1 :: channels[j] == channels[1..][j - 1];
        assert IsFirstText(channels, id, i + 1);
      }
      if i :| IsFirstText(channels, id, i) {
        assert IsFirstText(channels[1..], id, i - 1);
      }
    } else if channels != [] && channels[0].isText {
      assert IsFirstText(channels, id, 0);
    }
  }

  /**
   With channels told apart by their ids: a panel passes if its channel, if any, is a text channel and it has one if it
   must.
   */
  lemma NotificationChannelOkIff(data: Panel, channels: seq<Channel>, globalSettings: Option<Settings>)
    requires forall i, j | 0 <= i < j < |channels| :: channels[i].id != channels[j].id
    ensures NotificationChannelOk(data, channels, globalSettings) <==>
            if data.channel.Some? then Channel(data.channel.value, true) in channels
            else !data.useThreads || exists c, t :: globalSettings == Some(Settings(t, Some(c)))
  {
    if data.channel.Some? {
      TextChannelIff(channels, data.channel.value);
      if i :| 0 <= i < |channels| && channels[i] == Channel(data.channel.value, true) {
        assert IsFirstText(channels, data.channel.value, i);
      }
    } else if globalSettings.Some? && globalSettings.value.channel.Some? {
      assert globalSettings
             == Some(Settings(globalSettings.value.useThreads, Some(globalSettings.value.channel.value)));
    }
  }

  /** The row that is stored: without thread mode the channel is dropped. */
  function ToStore(data: Panel): Panel {
    if data.useThreads then data else data.(channel := None)
  }

  // ----- settings validation -----

  predicate DependsOnGlobal(p: Panel) {
    p.useThreads && p.channel.None?
  }

  ghost predicate SomeDepends(panels: seq<Panel>) {
    exists i :: 0 <= i < |panels| && DependsOnGlobal(panels[i])
  }

  /** The auto-close periods as they are after the clamping. */
  function Clamped(a: AutoClose, isPremium: bool): AutoClose {
    var since := (x: int) => if !isPremium || !a.enabled || x < 0 then 0 else x;
    AutoClose(a.enabled, since(a.sinceOpen), since(a.sinceLast), a.enabled && a.onLeave)
  }

  predicate WithinSixtyDays(a: AutoClose) {
    a.sinceOpen <= SIXTY_DAYS && a.sinceLast <= SIXTY_DAYS
  }

  function ThreadSettings(s: Settings): Settings {
    if s.useThreads then s else s.(channel := None)
  }

  /**
   What the validation accepts. `panels` are the guild's panels, None when they cannot be read;
   `others` stands for the checks on language, colours, the context-menu panel and durations;
   `channelOk` for the lookup of the notification channel.
   */
  ghost predicate SettingsOk(form: Form, isPremium: bool, panels: Option<seq<Panel>>, others: bool, channelOk: bool) {
    && (form.canType ==> form.canView)
    && (form.settings.useThreads ==> form.settings.channel.Some? && channelOk)
    && (!form.settings.useThreads ==> panels.Some? && !SomeDepends(panels.value))
    && WithinSixtyDays(Clamped(form.autoClose, isPremium))
    && others
  }

  /** Periods count against the sixty days only for a premium guild with auto-close enabled. */
  lemma SettingsOkIff(form: Form, isPremium: bool, panels: Option<seq<Panel>>, others: bool, channelOk: bool)
    ensures SettingsOk(form, isPremium, panels, others, channelOk) <==>
            && others && !(form.canType && !form.canView)
            && (if form.settings.useThreads then form.settings.channel.Some? && channelOk
                else panels.Some? && forall p | p in panels.value :: p.useThreads ==> p.channel.Some?)
            && (isPremium && form.autoClose.enabled ==>
                  form.autoClose.sinceOpen <= 5184000 && form.autoClose.sinceLast <= 5184000)
  {
    if panels.Some? {
      forall i | 0 <= i < |panels.value|
        ensures panels.value[i] in panels.value
      {
      }
      if p :| p in panels.value && p.useThreads && p.channel.None? {
        var i :| 0 <= i < |panels.value| && panels.value[i] == p;
        assert DependsOnGlobal(panels.value[i]);
      }
    }
  }

  class SettingsForm {
    var canView: bool
    var canType: bool
    var useThreads: bool
    var channel: Option<nat>
    var autoClose: AutoClose

    ghost function Value(): Form
      reads this
    {
      Form(canView, canType, Settings(useThreads, channel), autoClose)
    }

    /** Whether some panel uses the guild's channel. */
    method AnyDepends(panels: seq<Panel>) returns (found: bool)
      ensures found <==> SomeDepends(panels)
    {
      for i := 0 to |panels|
        invariant forall k | 0 <= k < i :: !DependsOnGlobal(panels[k])
      {
        if panels[i].useThreads && panels[i].channel.None? {
          return true;
        }
      }
      return false;
    }

    /** Rewrites the form on the way; the second dependency check is never reached. */
    method Validate(isPremium: bool, panels: Option<seq<Panel>>, others: bool, channelOk: bool) returns (ok: bool)
      modifies this
      ensures ok <==> old(SettingsOk(Value(), isPremium, panels, others, channelOk))
      ensures ok ==>
                Value() ==
                old(Value().(settings := ThreadSettings(Value().settings), autoClose := Clamped(autoClose, isPremium)))
    {
      if canType && !canView {
        return false;
      }
      if useThreads && channel.None? {
        return false;
      }
      if !useThreads {
        if panels.None? {
          return false;
        }
        var depends := AnyDepends(panels.value);
        if depends {
          return false;
        }
        channel := None;
      }
      if channel.None? && useThreads {
        assert false;
      }
      ClampAutoClose(isPremium);
      if autoClose.sinceLast > SIXTY_DAYS || autoClose.sinceOpen > SIXTY_DAYS {
        return false;
      }
      return others && (channel.Some? ==> channelOk);
    }

    method ClampAutoClose(isPremium: bool)
      modifies this`autoClose
      ensures autoClose == Clamped(old(autoClose), isPremium)
    {
      if !isPremium {
        autoClose := autoClose.(sinceOpen := 0, sinceLast := 0);
      }
      if !autoClose.enabled {
        autoClose := autoClose.(sinceOpen := 0, sinceLast := 0, onLeave := false);
      }
      if autoClose.sinceOpen < 0 {
        autoClose := autoClose.(sinceOpen := 0);
      }
      if autoClose.sinceLast < 0 {
        autoClose := autoClose.(sinceLast := 0);
      }
    }
  }

  /** What is written for an auto-close form. */
  function ConvertToDatabase(a: AutoClose): StoredAutoClose {
    StoredAutoClose(a.enabled,
                    if a.sinceOpen > 0 then Some(a.sinceOpen) else None,
                    if a.sinceLast > 0 then Some(a.sinceLast) else None,
                    a.onLeave)
  }

  /** The form that shows a stored row. */
  function Shown(s: StoredAutoClose): AutoClose {
    AutoClose(s.enabled, if s.sinceOpen.Some? then s.sinceOpen.value else 0,
              if s.sinceLast.Some? then s.sinceLast.value else 0, s.onLeave)
  }

  /** A period is stored if auto-close is enabled, the guild is premium and the period positive, and then as it is. */
  lemma StoredPeriods(a: AutoClose, isPremium: bool)
    ensures var s := ConvertToDatabase(Clamped(a, isPremium));
            && s.enabled == a.enabled && s.onLeave == (a.enabled && a.onLeave)
            && s.sinceOpen == (if a.enabled && isPremium && a.sinceOpen > 0 then Some(a.sinceOpen) else None)
            && s.sinceLast == (if a.enabled && isPremium && a.sinceLast > 0 then Some(a.sinceLast) else None)
  {
  }

  /** Clamping makes the stored row show what was saved, and saving that again changes nothing. */
  lemma AutoCloseRoundTrip(a: AutoClose, isPremium: bool)
    ensures var c := Clamped(a, isPremium);
            && Shown(ConvertToDatabase(c)) == c
            && Clamped(c, isPremium) == c
            && (Shown(ConvertToDatabase(a)) == a <==> a.sinceOpen >= 0 && a.sinceLast >= 0)
            && (!isPremium || !a.enabled ==>
                  WithinSixtyDays(c) && ConvertToDatabase(c).sinceOpen.None? && ConvertToDatabase(c).sinceLast.None?)
  {
  }

  // ----- the machine -----

  datatype Op =
    | CreatePanel(data: Panel, channels: seq<Channel>, readable: bool, others: bool, id: nat, stored: bool)
    | UpdatePanel(id: nat, data: Panel, channels: seq<Channel>, readable: bool, others: bool, stored: bool)
    | DeletePanel(id: nat, stored: bool)
    | UpdateSettings(form: Form, isPremium: bool, panels: seq<Panel>, readable: bool, others: bool, channelOk: bool,
                     stored: bool)

  function Read<T>(value: T, readable: bool): Option<T> {
    if readable then Some(value) else None
  }

  /** `panels` of a settings step lists the guild's panels. */
  ghost predicate Possible(g: Guild, op: Op) {
    match op
    case CreatePanel(_, _, _, _, id, _) => id !in g.panels
    case UpdateSettings(_, _, panels, _, _, _, _) => forall p :: p in panels <==> p in g.panels.Values
    case _ => true
  }

  ghost function Apply(g: Guild, op: Op): Guild {
    match op
    case CreatePanel(data, channels, readable, others, id, stored) =>
      if others && stored && NotificationChannelOk(data, channels, Read(g.settings, readable))
      then g.(panels := g.panels[id := ToStore(data).(forceDisabled := false)]) else g
    case UpdatePanel(id, data, channels, readable, others, stored) =>
      if id in g.panels && !g.panels[id].forceDisabled && others && stored
         && NotificationChannelOk(data, channels, Read(g.settings, readable))
      then g.(panels := g.panels[id := ToStore(data).(forceDisabled := g.panels[id].forceDisabled)]) else g
    case DeletePanel(id, stored) => if stored then g.(panels := g.panels - {id}) else g
    case UpdateSettings(form, isPremium, panels, readable, others, channelOk, stored) =>
      if SettingsOk(form, isPremium, Read(panels, readable), others, channelOk) && stored
      then g.(settings := ThreadSettings(form.settings)) else g
  }

  /** What an accepted panel step stores, and that it touches nothing else. */
  lemma PanelIsStored(g: Guild, op: Op)
    requires op.CreatePanel? || op.UpdatePanel?
    ensures var g' := Apply(g, op);
            var accepted := op.others && op.stored
              && NotificationChannelOk(op.data, op.channels, if op.readable then Some(g.settings) else None)
              && (op.UpdatePanel? ==> op.id in g.panels && !g.panels[op.id].forceDisabled);
            && g'.settings == g.settings
            && (forall id | id != op.id :: id in g'.panels <==> id in g.panels)
            && (forall id | id != op.id && id in g.panels :: g'.panels[id] == g.panels[id])
            && (if accepted then
                  && op.id in g'.panels && g'.panels[op.id].useThreads == op.data.useThreads
                  && g'.panels[op.id].channel == (if op.data.useThreads then op.data.channel else None)
                  && !g'.panels[op.id].forceDisabled
                else g' == g)
  {
  }

  /**
   Other steps: a deletion drops its panel only; accepted settings are stored, without a channel outside thread mode.
   */
  lemma OtherStepsStore(g: Guild, op: Op)
    requires op.DeletePanel? || op.UpdateSettings?
    ensures op.DeletePanel? ==> Apply(g, op) == if op.stored then g.(panels := g.panels - {op.id}) else g
    ensures op.UpdateSettings? ==>
              var ok := SettingsOk(op.form, op.isPremium, if op.readable then Some(op.panels) else None, op.others,
                                   op.channelOk);
              && Apply(g, op).panels == g.panels
              && Apply(g, op).settings ==
                 if !ok || !op.stored then g.settings
                 else if op.form.settings.useThreads then op.form.settings
                 else Settings(false, None)
  {
  }

  ghost predicate PanelOk(p: Panel, s: Settings) {
    && (p.useThreads ==> p.channel.Some? || s.channel.Some?)
    && (!p.useThreads ==> p.channel.None?)
  }

  ghost predicate Inv(g: Guild) {
    && (g.settings.channel.Some? <==> g.settings.useThreads)
    && forall id | id in g.panels :: PanelOk(g.panels[id], g.settings)
  }

  lemma StepKeepsInv(g: Guild, op: Op)
    requires Inv(g) && Possible(g, op)
    ensures Inv(Apply(g, op))
  {
    if op.UpdateSettings? && Apply(g, op) != g {
      forall id | id in g.panels
        ensures PanelOk(g.panels[id], Apply(g, op).settings)
      {
        assert g.panels[id] in op.panels;
      }
    }
  }

  ghost predicate IsRun(states: seq<Guild>, ops: seq<Op>) {
    && |states| == |ops| + 1
    && states[0] == Guild(map[], Settings(false, None))
    && forall i | 0 <= i < |ops| :: Possible(states[i], ops[i]) && states[i + 1] == Apply(states[i], ops[i])
  }

  lemma {:induction false} RunKeepsInv(states: seq<Guild>, ops: seq<Op>, k: nat)
    requires IsRun(states, ops) && k < |states|
    ensures Inv(states[k])
    decreases k
  {
    if k > 0 {
      RunKeepsInv(states, ops, k - 1);
      StepKeepsInv(states[k - 1], ops[k - 1]);
    }
  }

  /**
   In every reachable state each panel in thread mode has a channel, its own or the guild's, and no other panel stores
   one.
   */
  lemma EveryPanelHasItsChannel(states: seq<Guild>, ops: seq<Op>, k: nat, id: nat)
    requires IsRun(states, ops) && k < |states| && id in states[k].panels
    ensures var p := states[k].panels[id];
            if p.useThreads then p.channel.Some? || states[k].settings.channel.Some? else p.channel.None?
  {
    RunKeepsInv(states, ops, k);
    assert PanelOk(states[k].panels[id], states[k].settings);
  }

  /**
   Turning the guild's thread mode off is refused exactly when some panel would be left without
   a channel.
   */
  lemma DisablingIsSafeIff(g: Guild, form: Form, isPremium: bool, panels: seq<Panel>, channelOk: bool)
    requires Inv(g) && !form.settings.useThreads && (forall p :: p in panels <==> p in g.panels.Values)
    requires (form.canType ==> form.canView) && WithinSixtyDays(Clamped(form.autoClose, isPremium))
    ensures SettingsOk(form, isPremium, Some(panels), true, channelOk) <==>
            Inv(g.(settings := ThreadSettings(form.settings)))
  {
    if SomeDepends(panels) {
      var i :| 0 <= i < |panels| && DependsOnGlobal(panels[i]);
      assert panels[i] in panels;
      var id :| id in g.panels && g.panels[id] == panels[i];
      assert !PanelOk(g.panels[id], ThreadSettings(form.settings));
    } else {
      forall id | id in g.panels
        ensures PanelOk(g.panels[id], ThreadSettings(form.settings))
      {
        assert g.panels[id] in panels;
      }
    }
  }

  /** The handlers over one guild's rows. */
  class Handlers {
    var guild: Guild

    method StorePanel(data: Panel, channels: seq<Channel>, readable: bool, others: bool, id: nat, stored: bool)
      modifies this
      ensures guild == Apply(old(guild), CreatePanel(data, channels, readable, others, id, stored))
    {
      var ok := ValidateTicketNotificationChannel(data, channels, Read(guild.settings, readable));
      if !ok || !others {
        return;
      }
      var row := data;
      if !row.useThreads {
        row := row.(channel := None);
      }
      if stored {
        guild := guild.(panels := guild.panels[id := row.(forceDisabled := false)]);
      }
    }

    method UpdatePanelRow(id: nat, data: Panel, channels: seq<Channel>, readable: bool, others: bool, stored: bool)
      modifies this
      ensures guild == Apply(old(guild), UpdatePanel(id, data, channels, readable, others, stored))
    {
      if id !in guild.panels || guild.panels[id].forceDisabled {
        return;
      }
      var ok := ValidateTicketNotificationChannel(data, channels, Read(guild.settings, readable));
      if !ok || !others {
        return;
      }
      var row := data;
      if !row.useThreads {
        row := row.(channel := None);
      }
      if stored {
        guild := guild.(panels := guild.panels[id := row.(forceDisabled := guild.panels[id].forceDisabled)]);
      }
    }

    method UpdateSettingsHandler(form: SettingsForm, isPremium: bool, panels: seq<Panel>, readable: bool, others: bool,
                                 channelOk: bool, stored: bool)
      requires form as object != this
      modifies this, form
      ensures guild == Apply(old(guild),
                             UpdateSettings(old(form.Value()), isPremium, panels, readable, others, channelOk, stored))
    {
      var ok := form.Validate(isPremium, Read(panels, readable), others, channelOk);
      if ok && stored {
        guild := guild.(settings := Settings(form.useThreads, form.channel));
      }
    }
  }
}
