/** The plugin's per-key settings and the map from Stream Deck context to
    registration that its event handlers maintain. */
module PluginSettings {
  import opened Wrappers
  import opened Values

  /** A key's settings object. */
  type Settings = JsonObject

  /** `DEFAULTS`. */
  const Defaults: Settings := map[
    "lang" := Str("fr"),
    "showLabel" := Bool(true),
    "showDate" := Bool(true),
    "dateFormat" := Str("ddmmyy"),
    "showColorText" := Bool(true),
    "showTimer" := Bool(false),
    "timerMode" := Str("endOfDay")]

  /** `mergeSettings(s)`, that is `{...DEFAULTS, ...(s || {})}`. None stands for
      settings that are absent or falsy. */
  function MergeSettings(s: Option<Settings>): (r: Settings)
    ensures r.Keys == Defaults.Keys + (if s.Some? then s.value.Keys else {})
    ensures forall k :: k in r ==> r[k] == (if s.Some? && k in s.value then s.value[k] else Defaults[k])
  {
    Defaults + s.GetOr(map[])
  }

  /** Every default key is present. */
  predicate Complete(s: Settings) {
    Defaults.Keys <= s.Keys
  }

  /** Merging is idempotent: merged settings sent back (as the property
      inspector does) merge to themselves. */
  lemma MergeIdempotent(s: Option<Settings>)
    ensures MergeSettings(Some(MergeSettings(s))) == MergeSettings(s)
  {
    var m := MergeSettings(s);
    assert MergeSettings(Some(m)).Keys == m.Keys;
  }

  /** Missing settings and an empty object both give the defaults. */
  lemma MergeNothing()
    ensures MergeSettings(None) == Defaults
    ensures MergeSettings(Some(map[])) == Defaults
  {
    assert MergeSettings(None).Keys == Defaults.Keys;
    assert MergeSettings(Some(map[])).Keys == Defaults.Keys;
  }

  // ---------------------------------------------------------------------------
  // The context map
  // ---------------------------------------------------------------------------

  /** What the plugin remembers about one key: its action UUID and settings. */
  datatype Registration = Registration(action: string, settings: Settings)

  /** `contexts`: Stream Deck context to registration. */
  type Contexts = map<string, Registration>

  /** Every registered key has complete settings. */
  predicate WellFormed(m: Contexts) {
    forall c :: c in m ==> Complete(m[c].settings)
  }

  /** `onWillAppear`: (re)register the key with merged settings. */
  function WillAppear(m: Contexts, ctx: string, action: string, settings: Option<Settings>): (r: Contexts)
    ensures r.Keys == m.Keys + {ctx}
    ensures r[ctx] == Registration(action, MergeSettings(settings)) && Complete(r[ctx].settings)
    ensures forall c :: c in m && c != ctx ==> r[c] == m[c]
  {
    m[ctx := Registration(action, MergeSettings(settings))]
  }

  /** `contexts.delete(ctx)`: a no-op when the key is not registered. */
  function WillDisappear(m: Contexts, ctx: string): (r: Contexts)
    ensures r.Keys == m.Keys - {ctx}
    ensures forall c :: c in r ==> r[c] == m[c]
    ensures ctx !in m ==> r == m
  {
    m - {ctx}
  }

  /** `onDidReceiveSettings`: replace a registered key's settings; absent
      settings reset it to the defaults; unknown keys are ignored. */
  function DidReceiveSettings(m: Contexts, ctx: string, settings: Option<Settings>): (r: Contexts)
    ensures r.Keys == m.Keys
    ensures ctx !in m ==> r == m
    ensures ctx in m ==> r[ctx] == Registration(m[ctx].action, MergeSettings(settings))
    ensures forall c :: c in m && c != ctx ==> r[c] == m[c]
  {
    if ctx in m then m[ctx := m[ctx].(settings := MergeSettings(settings))] else m
  }

  /** `onSendToPlugin`: like `onDidReceiveSettings`, except that a message
      without settings changes nothing. */
  function SendToPlugin(m: Contexts, ctx: string, settings: Option<Settings>): (r: Contexts)
    ensures r.Keys == m.Keys
    ensures ctx !in m || settings.None? ==> r == m
    ensures ctx in m && settings.Some? ==> r[ctx] == Registration(m[ctx].action, MergeSettings(settings))
    ensures forall c :: c in m && c != ctx ==> r[c] == m[c]
  {
    if ctx in m && settings.Some? then m[ctx := m[ctx].(settings := MergeSettings(settings))] else m
  }

  /** The messages the plugin's socket handler dispatches on. */
  datatype Event =
    | WillAppearEvent(ctx: string, action: string, settings: Option<Settings>)
    | WillDisappearEvent(ctx: string)
    | KeyDownEvent(ctx: string)
    | DidReceiveSettingsEvent(ctx: string, settings: Option<Settings>)
    | SendToPluginEvent(ctx: string, settings: Option<Settings>)
    | OtherEvent

  /** The effect of one message on the context map. */
  function Dispatch(m: Contexts, e: Event): (r: Contexts)
    ensures Target(e).None? ==> r == m
    ensures forall k :: k in m && Some(k) != Target(e) ==> k in r && r[k] == m[k]
    ensures forall k :: k in r && Some(k) != Target(e) ==> k in m
  {
    match e
    case WillAppearEvent(ctx, action, settings) => WillAppear(m, ctx, action, settings)
    case WillDisappearEvent(ctx) => WillDisappear(m, ctx)
    case KeyDownEvent(_) => m
    case DidReceiveSettingsEvent(ctx, settings) => DidReceiveSettings(m, ctx, settings)
    case SendToPluginEvent(ctx, settings) => SendToPlugin(m, ctx, settings)
    case OtherEvent => m
  }

  /** The key a message is about, if any. */
  function Target(e: Event): Option<string> {
    match e
    case WillAppearEvent(ctx, _, _) => Some(ctx)
    case WillDisappearEvent(ctx) => Some(ctx)
    case KeyDownEvent(_) => None
    case DidReceiveSettingsEvent(ctx, _) => Some(ctx)
    case SendToPluginEvent(ctx, _) => Some(ctx)
    case OtherEvent => None
  }

  /** No message touches a key it is not about. */
  lemma DispatchFrame(m: Contexts, e: Event, c: string)
    requires Target(e) != Some(c)
    ensures c in Dispatch(m, e) <==> c in m
    ensures c in m ==> Dispatch(m, e)[c] == m[c]
  {
  }

  /** Only `willAppear` adds keys and only `willDisappear` removes them. */
  lemma DispatchKeys(m: Contexts, e: Event)
    ensures !e.WillAppearEvent? ==> Dispatch(m, e).Keys <= m.Keys
    ensures !e.WillDisappearEvent? ==> m.Keys <= Dispatch(m, e).Keys
  {
  }

  /** Every registered key keeps complete settings, whatever messages arrive. */
  lemma DispatchWellFormed(m: Contexts, e: Event)
    requires WellFormed(m)
    ensures WellFormed(Dispatch(m, e))
  {
  }

  /** The same, over any sequence of messages starting from the empty map. */
  function Run(m: Contexts, es: seq<Event>): Contexts
    decreases |es|
  {
    if es == [] then m else Run(Dispatch(m, es[0]), es[1..])
  }

  lemma {:induction false} RunWellFormed(m: Contexts, es: seq<Event>)
    requires WellFormed(m)
    ensures WellFormed(Run(m, es))
    decreases |es|
  {
    if es != [] {
      DispatchWellFormed(m, es[0]);
      RunWellFormed(Dispatch(m, es[0]), es[1..]);
    }
  }

  /** A key that appears and then disappears leaves the map as it found a map
      that did not hold it. */
  lemma AppearDisappear(m: Contexts, ctx: string, action: string, settings: Option<Settings>)
    requires ctx !in m
    ensures WillDisappear(WillAppear(m, ctx, action, settings), ctx) == m
  {
  }
}
