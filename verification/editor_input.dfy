/**
 * The editor's keybind dispatcher (EditorInputManager): once per frame it turns
 * the set of pressed keybinds into calls on the editor screen, firing an action
 * on the edge press of one of its keybinds, or again while the keybind is held
 * when the action auto-repeats and its timing records allow it.
 *
 * The screen is stood in for by a log of the effects the dispatcher asks for.
 */
module EditorInput {

  /** A physical key code. */
  type Key = int

  /** A chord: the keys that must be held together. */
  datatype Keybind = Keybind(keys: set<Key>)

  /** The keys held at one poll. */
  datatype KeyState = KeyState(pressedKeys: set<Key>)

  /** The editor's named commands. `OtherAction` stands for every member of the
      action enumeration for which the dispatcher's switch has no case. */
  datatype Action =
    | ExitEditor | PlayPause
    | ZoomIn | ZoomInLarge | ZoomOut | ZoomOutLarge
    | SeekForwards | SeekBackwards | SeekForwards1ms | SeekBackwards1ms
    | SeekToStartOfSelection | SeekToEndOfSelection | SeekToStart | SeekToEnd
    | IncreasePlaybackRate | DecreasePlaybackRate
    | ChangeToolUp | ChangeToolDown
    | ChangeToolToSelect | ChangeToolToNote | ChangeToolToLongNote
    | OtherAction(id: nat)

  datatype Direction = Forward | Backward

  datatype CompositionTool = Select | Note | LongNote

  /** What the dispatcher reads of the audio track: whether it plays, and its time. */
  datatype Track = Track(isPlaying: bool, time: real)

  /** One call on the editor screen. */
  datatype Effect =
    | LeaveEditor
    | TogglePlayPause
    | AdjustZoom(amount: int)
    | SeekInDirection(direction: Direction)
    | SeekTo(time: real)
    | SeekToStart | SeekToEnd | SeekToStartOfSelection | SeekToEndOfSelection
    | ChangeAudioPlaybackRate(direction: Direction)
    | ChangeTool(direction: Direction)
    | ChangeToolTo(tool: CompositionTool)

  /** Milliseconds an action must have been held before it auto-repeats. */
  const HoldRepeatActionDelay: int := 250

  /** Milliseconds between two auto-repeated dispatches. */
  const HoldRepeatActionInterval: int := 25

  const HoldRepeatActions: set<Action> :=
    {ZoomIn, ZoomInLarge, ZoomOut, ZoomOutLarge,
     SeekForwards, SeekBackwards, SeekForwards1ms, SeekBackwards1ms,
     IncreasePlaybackRate, DecreasePlaybackRate,
     ChangeToolUp, ChangeToolDown}

  const HoldAndReleaseActions: set<Action> := {}

  // ---------------------------------------------------------------------------
  // Repeat gate

  /** Time elapsed since the record of `a`; an absent record counts as `now`,
      so the elapsed time is then 0. */
  function TimeSince(records: map<Action, int>, a: Action, now: int): (elapsed: int)
    ensures a in records ==> elapsed == now - records[a]
    ensures a !in records ==> elapsed == 0
  {
    now - (if a in records then records[a] else now)
  }

  /** May a held (not freshly pressed) keybind fire `a` again at `now`? */
  function CanRepeat(lastPress: map<Action, int>, lastTime: map<Action, int>, a: Action, now: int): (r: bool)
    ensures r <==>
      && a in HoldRepeatActions
      && a in lastTime && now - lastTime[a] > HoldRepeatActionInterval
      && a in lastPress && now - lastPress[a] > HoldRepeatActionDelay
  {
    if a !in HoldRepeatActions then false
    else (TimeSince(lastTime, a, now) > HoldRepeatActionInterval
          && TimeSince(lastPress, a, now) > HoldRepeatActionDelay)
  }

  /** May a held keybind fire a hold-and-release action at `now`? Never, as no
      action is of that class. */
  function CanHold(lastTime: map<Action, int>, a: Action, now: int): (r: bool)
    ensures !r
  {
    if a !in HoldAndReleaseActions then false
    else TimeSince(lastTime, a, now) > HoldRepeatActionInterval
  }

  /** At the edges of the repeat window: held since 0 and last fired at 0, the
      action may not repeat at 250 (the comparison is strict), and may at 251. */
  lemma RepeatWindowIsStrict(a: Action)
    requires a in HoldRepeatActions
    ensures !CanRepeat(map[a := 0], map[a := 0], a, 250)
    ensures CanRepeat(map[a := 0], map[a := 0], a, 251)
    ensures !CanRepeat(map[a := 0], map[a := 240], a, 265)
  {
  }

  // ---------------------------------------------------------------------------
  // The action table

  /** Whether the switch has a case for an action, and which calls that case makes. */
  datatype Handling = Unhandled | Handled(effects: seq<Effect>)

  /** The switch of HandleAction, as data. */
  function HandlerFor(a: Action, track: Track): (h: Handling)
    ensures h.Unhandled? <==> a.OtherAction?
    ensures h.Handled? ==>
      |h.effects| == if a in {SeekForwards1ms, SeekBackwards1ms} && track.isPlaying then 0 else 1
  {
    match a
    case ExitEditor => Handled([LeaveEditor])
    case PlayPause => Handled([TogglePlayPause])
    case ZoomIn => Handled([AdjustZoom(1)])
    case ZoomInLarge => Handled([AdjustZoom(5)])
    case ZoomOut => Handled([AdjustZoom(-1)])
    case ZoomOutLarge => Handled([AdjustZoom(-5)])
    case SeekForwards => Handled([SeekInDirection(Forward)])
    case SeekBackwards => Handled([SeekInDirection(Backward)])
    case SeekForwards1ms => Handled(if track.isPlaying then [] else [SeekTo(track.time + 1.0)])
    case SeekBackwards1ms => Handled(if track.isPlaying then [] else [SeekTo(track.time - 1.0)])
    // The four seeks below call the screen method of the other name.
    case SeekToStartOfSelection => Handled([Effect.SeekToStart])
    case SeekToEndOfSelection => Handled([Effect.SeekToEnd])
    case SeekToStart => Handled([Effect.SeekToStartOfSelection])
    case SeekToEnd => Handled([Effect.SeekToEndOfSelection])
    case IncreasePlaybackRate => Handled([ChangeAudioPlaybackRate(Forward)])
    case DecreasePlaybackRate => Handled([ChangeAudioPlaybackRate(Backward)])
    case ChangeToolUp => Handled([ChangeTool(Backward)])
    case ChangeToolDown => Handled([ChangeTool(Forward)])
    case ChangeToolToSelect => Handled([ChangeToolTo(Select)])
    case ChangeToolToNote => Handled([ChangeToolTo(Note)])
    case ChangeToolToLongNote => Handled([ChangeToolTo(LongNote)])
    case OtherAction(_) => Unhandled
  }

  /** Every auto-repeating action has a case in the switch. */
  lemma HoldRepeatActionsAreHandled(a: Action, track: Track)
    requires a in HoldRepeatActions
    ensures HandlerFor(a, track).Handled?
  {
  }

  // ---------------------------------------------------------------------------
  // The dispatcher's state as a value, and the specification of one poll

  /** The timing records and the effects asked of the screen so far. */
  datatype Dispatch = Dispatch(lastPress: map<Action, int>, lastTime: map<Action, int>, effects: seq<Effect>)

  /** HandleAction: run the case of `a`, and stamp its dispatch time when the
      switch has a case for it. */
  function Fire(d: Dispatch, a: Action, now: int, track: Track): (r: Dispatch)
    ensures r.lastPress == d.lastPress
    ensures r.lastTime == if a.OtherAction? then d.lastTime else d.lastTime[a := now]
    ensures r.effects == d.effects + (if a.OtherAction? then [] else HandlerFor(a, track).effects)
    ensures d.effects <= r.effects && |r.effects| <= |d.effects| + 1
    ensures |r.effects| == |d.effects| <==>
      a.OtherAction? || (a in {SeekForwards1ms, SeekBackwards1ms} && track.isPlaying)
  {
    match HandlerFor(a, track)
    case Unhandled => d
    case Handled(es) => d.(lastTime := d.lastTime[a := now], effects := d.effects + es)
  }

  /** One action bound to one pressed keybind: fire on an edge press (and stamp
      the press time), else fire if it may repeat, else if it may be held. */
  function ActionStep(d: Dispatch, a: Action, edge: bool, now: int, track: Track): Dispatch
  {
    if edge then
      var f := Fire(d, a, now, track);
      f.(lastPress := f.lastPress[a := now])
    else if CanRepeat(d.lastPress, d.lastTime, a, now) then Fire(d, a, now, track)
    else if CanHold(d.lastTime, a, now) then Fire(d, a, now, track)
    else d
  }

  /** The actions bound to one pressed keybind, in the order they are visited. */
  function ActionsStep(d: Dispatch, order: seq<Action>, edge: bool, now: int, track: Track): Dispatch
    decreases |order|
  {
    if order == [] then d
    else
      var n := |order| - 1;
      ActionStep(ActionsStep(d, order[..n], edge, now, track), order[n], edge, now, track)
  }

  lemma ActionsStepSnoc(d: Dispatch, order: seq<Action>, a: Action, edge: bool, now: int, track: Track)
    ensures ActionsStep(d, order + [a], edge, now, track) == ActionStep(ActionsStep(d, order, edge, now, track), a, edge, now, track)
  {
    assert (order + [a])[..|order|] == order;
  }

  /** The whole pass over the pressed keybinds; `orders[i]` is the order in which
      the actions bound to `pressed[i]` are visited. */
  function KeyPresses(d: Dispatch, pressed: seq<Keybind>, orders: seq<seq<Action>>,
                      unique: set<Keybind>, now: int, track: Track): Dispatch
    requires |orders| == |pressed|
    decreases |pressed|
  {
    if pressed == [] then d
    else
      var n := |pressed| - 1;
      ActionsStep(KeyPresses(d, pressed[..n], orders[..n], unique, now, track),
                  orders[n], pressed[n] in unique, now, track)
  }

  lemma KeyPressesSnoc(d: Dispatch, dictionary: map<Keybind, set<Action>>, pressed: seq<Keybind>, i: nat,
                       orders: seq<seq<Action>>, order: seq<Action>, unique: set<Keybind>, now: int, track: Track)
    requires i < |pressed| && ValidOrders(dictionary, pressed[..i], orders)
    requires IsEnumeration(order, Lookup(dictionary, pressed[i]))
    ensures ValidOrders(dictionary, pressed[..i + 1], orders + [order])
    ensures KeyPresses(d, pressed[..i + 1], orders + [order], unique, now, track)
         == ActionsStep(KeyPresses(d, pressed[..i], orders, unique, now, track), order, pressed[i] in unique, now, track)
  {
    assert pressed[..i + 1][..i] == pressed[..i];
    assert (orders + [order])[..i] == orders;
  }

  /** The release pass: each visited action whose keybind was just released fires. */
  function Releases(d: Dispatch, order: seq<Action>, released: set<Action>, now: int, track: Track): Dispatch
    decreases |order|
  {
    if order == [] then d
    else
      var n := |order| - 1;
      var r := Releases(d, order[..n], released, now, track);
      if order[n] in released then Fire(r, order[n], now, track) else r
  }

  /** The actions bound to a keybind; none for an unbound one. */
  function Lookup(dictionary: map<Keybind, set<Action>>, k: Keybind): set<Action>
  {
    if k in dictionary then dictionary[k] else {}
  }

  /** `order` visits every element of `s` exactly once. */
  ghost predicate IsEnumeration(order: seq<Action>, s: set<Action>)
  {
    && (forall i, j :: 0 <= i < j < |order| ==> order[i] != order[j])
    && (forall a :: a in order <==> a in s)
  }

  ghost predicate ValidOrders(dictionary: map<Keybind, set<Action>>, pressed: seq<Keybind>, orders: seq<seq<Action>>)
  {
    |orders| == |pressed| &&
    forall i :: 0 <= i < |pressed| ==> IsEnumeration(orders[i], Lookup(dictionary, pressed[i]))
  }

  // ---------------------------------------------------------------------------
  // Properties of one action step

  /** An edge press fires the action whatever its class, stamps its press time,
      and stamps its dispatch time exactly when the switch has a case for it. */
  lemma EdgePressFires(d: Dispatch, a: Action, now: int, track: Track)
    ensures var r := ActionStep(d, a, true, now, track);
      && r.lastPress == d.lastPress[a := now]
      && r.lastTime == (if a.OtherAction? then d.lastTime else d.lastTime[a := now])
      && r.effects == d.effects + (if a.OtherAction? then [] else HandlerFor(a, track).effects)
  {
  }

  /** An action already dispatched at `now` cannot fire again in the same poll
      except through another edge press. */
  lemma NoSecondNonEdgeFire(d: Dispatch, a: Action, now: int, track: Track)
    requires a in d.lastTime && d.lastTime[a] == now
    ensures ActionStep(d, a, false, now, track) == d
  {
  }

  /** A held keybind fires an action exactly when it may repeat, and never
      touches the press time. */
  lemma HeldKeybindFiresOnlyOnRepeat(d: Dispatch, a: Action, now: int, track: Track)
    ensures var r := ActionStep(d, a, false, now, track);
      && r.lastPress == d.lastPress
      && (!CanRepeat(d.lastPress, d.lastTime, a, now) ==> r == d)
      && (CanRepeat(d.lastPress, d.lastTime, a, now) ==>
            r == Fire(d, a, now, track)
            && r.lastTime == d.lastTime[a := now]
            && r.effects == d.effects + HandlerFor(a, track).effects)
  {
  }

  // ---------------------------------------------------------------------------
  // The timing records after a whole poll, whatever the visiting orders

  /** Actions bound to a pressed keybind that is an edge press this poll. */
  function EdgeActions(dictionary: map<Keybind, set<Action>>, pressed: seq<Keybind>, unique: set<Keybind>): (r: set<Action>)
    ensures forall a :: a in r <==>
      exists i :: 0 <= i < |pressed| && pressed[i] in unique && a in Lookup(dictionary, pressed[i])
    decreases |pressed|
  {
    if pressed == [] then {}
    else
      var n := |pressed| - 1;
      var before := EdgeActions(dictionary, pressed[..n], unique);
      assert forall i :: 0 <= i < n ==> pressed[..n][i] == pressed[i];
      before + (if pressed[n] in unique then Lookup(dictionary, pressed[n]) else {})
  }

  /** Actions bound to a pressed keybind that is held from an earlier poll. */
  function HeldActions(dictionary: map<Keybind, set<Action>>, pressed: seq<Keybind>, unique: set<Keybind>): (r: set<Action>)
    ensures forall a :: a in r <==>
      exists i :: 0 <= i < |pressed| && pressed[i] !in unique && a in Lookup(dictionary, pressed[i])
    decreases |pressed|
  {
    if pressed == [] then {}
    else
      var n := |pressed| - 1;
      var before := HeldActions(dictionary, pressed[..n], unique);
      assert forall i :: 0 <= i < n ==> pressed[..n][i] == pressed[i];
      before + (if pressed[n] !in unique then Lookup(dictionary, pressed[n]) else {})
  }

  /** The actions whose dispatch time a poll stamps, given the records it starts from. */
  function StampedActions(d: Dispatch, dictionary: map<Keybind, set<Action>>, pressed: seq<Keybind>,
                          unique: set<Keybind>, now: int): (r: set<Action>)
    ensures forall a :: a in r <==>
      && !a.OtherAction?
      && (|| a in EdgeActions(dictionary, pressed, unique)
          || (a in HeldActions(dictionary, pressed, unique) && CanRepeat(d.lastPress, d.lastTime, a, now)))
    decreases |pressed|
  {
    if pressed == [] then {}
    else
      var n := |pressed| - 1;
      StampedActions(d, dictionary, pressed[..n], unique, now) + StampAdds(d, Lookup(dictionary, pressed[n]), pressed[n] in unique, now)
  }

  function StampAdds(d: Dispatch, s: set<Action>, edge: bool, now: int): set<Action>
  {
    set a | a in s && Stamps(d, a, edge, now)
  }

  /** The actions an order visits. */
  function Elements(order: seq<Action>): set<Action>
  {
    set a | a in order
  }

  /** Every action of `s` mapped to `now`. */
  function Stamp(s: set<Action>, now: int): map<Action, int>
  {
    map a | a in s :: now
  }

  /** `m` is `m0` with exactly the keys of `s` set to `now`. */
  predicate Stamped(m0: map<Action, int>, m: map<Action, int>, s: set<Action>, now: int)
  {
    m == m0 + Stamp(s, now)
  }

  /** What holds of the state reached from `d0` after stamping the press times of
      `edge` and the dispatch times of `stamped`. */
  predicate Reached(d0: Dispatch, d: Dispatch, edge: set<Action>, stamped: set<Action>, now: int)
  {
    && d0.effects <= d.effects
    && Stamped(d0.lastPress, d.lastPress, edge, now)
    && Stamped(d0.lastTime, d.lastTime, stamped, now)
    && (forall a :: a in stamped ==> !a.OtherAction?)
    && (forall a :: a in edge && !a.OtherAction? ==> a in stamped)
  }

  /** Whether the poll stamps the dispatch time of `a`, bound to a keybind that is
      an edge press (`edge`) or held, judged on the records the poll starts from. */
  predicate Stamps(d0: Dispatch, a: Action, edge: bool, now: int)
  {
    !a.OtherAction? && (edge || CanRepeat(d0.lastPress, d0.lastTime, a, now))
  }

  lemma StampedAgain(m0: map<Action, int>, m: map<Action, int>, s: set<Action>, a: Action, now: int)
    requires Stamped(m0, m, s, now)
    ensures Stamped(m0, m[a := now], s + {a}, now)
  {
    assert m[a := now] == m0 + Stamp(s + {a}, now);
  }

  lemma PrefixTransitive(a: seq<Effect>, b: seq<Effect>, c: seq<Effect>)
    requires a <= b && b <= c
    ensures a <= c
  {
    assert c[..|a|] == b[..|a|];
  }

  lemma EdgeStepReached(d0: Dispatch, d: Dispatch, e: set<Action>, t: set<Action>,
                        a: Action, now: int, track: Track)
    requires Reached(d0, d, e, t, now)
    ensures Reached(d0, ActionStep(d, a, true, now, track),
                    e + {a}, if Stamps(d0, a, true, now) then t + {a} else t, now)
  {
    var f := Fire(d, a, now, track);
    PrefixTransitive(d0.effects, d.effects, f.effects);
    StampedAgain(d0.lastPress, d.lastPress, e, a, now);
    if !a.OtherAction? {
      StampedAgain(d0.lastTime, d.lastTime, t, a, now);
    }
  }

  /** Records that agree at `a` give the same repeat decision for `a`. */
  lemma SameRecordsSameRepeat(d: Dispatch, d0: Dispatch, a: Action, now: int)
    requires (a in d.lastTime) == (a in d0.lastTime) && (a in d.lastPress) == (a in d0.lastPress)
    requires a in d.lastTime ==> d.lastTime[a] == d0.lastTime[a]
    requires a in d.lastPress ==> d.lastPress[a] == d0.lastPress[a]
    ensures CanRepeat(d.lastPress, d.lastTime, a, now) == CanRepeat(d0.lastPress, d0.lastTime, a, now)
  {
  }

  /** A held step fires exactly the actions the poll has not stamped yet and
      that could repeat at its start. */
  lemma HeldStepFires(d0: Dispatch, d: Dispatch, e: set<Action>, t: set<Action>,
                      a: Action, now: int, track: Track)
    requires Reached(d0, d, e, t, now)
    ensures ActionStep(d, a, false, now, track) ==
      if a !in t && Stamps(d0, a, false, now) then Fire(d, a, now, track) else d
  {
    if a in t {
      NoSecondNonEdgeFire(d, a, now, track);
    } else if !a.OtherAction? {
      assert a !in e;
      SameRecordsSameRepeat(d, d0, a, now);
    }
  }

  lemma HeldStepReached(d0: Dispatch, d: Dispatch, e: set<Action>, t: set<Action>,
                        a: Action, now: int, track: Track)
    requires Reached(d0, d, e, t, now)
    ensures Reached(d0, ActionStep(d, a, false, now, track),
                    e, if Stamps(d0, a, false, now) then t + {a} else t, now)
  {
    HeldStepFires(d0, d, e, t, a, now, track);
    if a in t {
      assert t + {a} == t;
    } else if Stamps(d0, a, false, now) {
      FireReached(d0, d, e, t, a, now, track);
    }
  }

  lemma FireReached(d0: Dispatch, d: Dispatch, e: set<Action>, t: set<Action>,
                    a: Action, now: int, track: Track)
    requires Reached(d0, d, e, t, now) && !a.OtherAction?
    ensures Reached(d0, Fire(d, a, now, track), e, t + {a}, now)
  {
    var f := Fire(d, a, now, track);
    PrefixTransitive(d0.effects, d.effects, f.effects);
    StampedAgain(d0.lastTime, d.lastTime, t, a, now);
  }

  lemma ActionStepReached(d0: Dispatch, d: Dispatch, e: set<Action>, t: set<Action>,
                          a: Action, edge: bool, now: int, track: Track)
    requires Reached(d0, d, e, t, now)
    ensures Reached(d0, ActionStep(d, a, edge, now, track),
                    if edge then e + {a} else e, if Stamps(d0, a, edge, now) then t + {a} else t, now)
  {
    if edge {
      EdgeStepReached(d0, d, e, t, a, now, track);
    } else {
      HeldStepReached(d0, d, e, t, a, now, track);
    }
  }

  /** The actions of `order` whose dispatch time the poll stamps. */
  function Stamping(d0: Dispatch, order: seq<Action>, edge: bool, now: int): set<Action>
    decreases |order|
  {
    if order == [] then {}
    else
      var n := |order| - 1;
      Stamping(d0, order[..n], edge, now) + (if Stamps(d0, order[n], edge, now) then {order[n]} else {})
  }

  lemma {:induction false} StampingMembers(d0: Dispatch, order: seq<Action>, edge: bool, now: int)
    ensures forall a :: a in Stamping(d0, order, edge, now) <==> a in order && Stamps(d0, a, edge, now)
    decreases |order|
  {
    if order != [] {
      var n := |order| - 1;
      StampingMembers(d0, order[..n], edge, now);
      assert order == order[..n] + [order[n]];
    }
  }

  lemma ElementsLast(order: seq<Action>)
    requires order != []
    ensures Elements(order) == Elements(order[..|order| - 1]) + {order[|order| - 1]}
  {
    assert order == order[..|order| - 1] + [order[|order| - 1]];
  }

  /** How the sets of stamped actions grow by the last action of an order. */
  lemma StampsOfLast(d0: Dispatch, e: set<Action>, t: set<Action>, order: seq<Action>, edge: bool, now: int)
    requires order != []
    ensures var n := |order| - 1;
      && (if edge then e + Elements(order) else e)
         == (if edge then (e + Elements(order[..n])) + {order[n]} else e)
      && t + Stamping(d0, order, edge, now)
         == (if Stamps(d0, order[n], edge, now) then (t + Stamping(d0, order[..n], edge, now)) + {order[n]}
             else t + Stamping(d0, order[..n], edge, now))
  {
    ElementsLast(order);
  }

  lemma ActionsStepLast(d0: Dispatch, d: Dispatch, e: set<Action>, t: set<Action>,
                        order: seq<Action>, edge: bool, now: int, track: Track)
    requires order != []
    requires var prefix := order[..|order| - 1];
      Reached(d0, ActionsStep(d, prefix, edge, now, track),
              if edge then e + Elements(prefix) else e, t + Stamping(d0, prefix, edge, now), now)
    ensures Reached(d0, ActionsStep(d, order, edge, now, track),
                    if edge then e + Elements(order) else e,
                    t + Stamping(d0, order, edge, now), now)
  {
    var n := |order| - 1;
    var prefix, last := order[..n], order[n];
    var e1 := if edge then e + Elements(prefix) else e;
    var t1 := t + Stamping(d0, prefix, edge, now);
    var r1 := ActionsStep(d, prefix, edge, now, track);
    ActionStepReached(d0, r1, e1, t1, last, edge, now, track);
    StampsOfLast(d0, e, t, order, edge, now);
  }

  lemma ActionsStepEmpty(d0: Dispatch, d: Dispatch, e: set<Action>, t: set<Action>,
                         edge: bool, now: int, track: Track)
    requires Reached(d0, d, e, t, now)
    ensures Reached(d0, ActionsStep(d, [], edge, now, track),
                    if edge then e + Elements([]) else e,
                    t + Stamping(d0, [], edge, now), now)
  {
    assert Elements([]) == {};
    assert e + {} == e && t + {} == t;
  }

  lemma {:induction false} ActionsStepReached(d0: Dispatch, d: Dispatch, e: set<Action>, t: set<Action>,
                                              order: seq<Action>, edge: bool, now: int, track: Track)
    requires Reached(d0, d, e, t, now)
    ensures Reached(d0, ActionsStep(d, order, edge, now, track),
                    if edge then e + Elements(order) else e,
                    t + Stamping(d0, order, edge, now), now)
    decreases |order|
  {
    if order == [] {
      ActionsStepEmpty(d0, d, e, t, edge, now, track);
    } else {
      ActionsStepReached(d0, d, e, t, order[..|order| - 1], edge, now, track);
      ActionsStepLast(d0, d, e, t, order, edge, now, track);
    }
  }

  lemma ValidOrdersPrefix(dictionary: map<Keybind, set<Action>>, pressed: seq<Keybind>, orders: seq<seq<Action>>, n: nat)
    requires ValidOrders(dictionary, pressed, orders) && n <= |pressed|
    ensures ValidOrders(dictionary, pressed[..n], orders[..n])
  {
    forall i | 0 <= i < n
      ensures IsEnumeration(orders[..n][i], Lookup(dictionary, pressed[..n][i]))
    {
      assert orders[..n][i] == orders[i] && pressed[..n][i] == pressed[i];
    }
  }

  /** The actions of an enumeration of `s` that the poll stamps are those of `s`. */
  lemma StampingOfEnumeration(d0: Dispatch, order: seq<Action>, s: set<Action>, edge: bool, now: int)
    requires IsEnumeration(order, s)
    ensures Elements(order) == s
    ensures Stamping(d0, order, edge, now) == StampAdds(d0, s, edge, now)
  {
    StampingMembers(d0, order, edge, now);
  }

  /** How the edge-pressed and stamped actions grow by the last pressed keybind. */
  lemma PollSetsOfLast(d0: Dispatch, dictionary: map<Keybind, set<Action>>, pressed: seq<Keybind>,
                       unique: set<Keybind>, now: int)
    requires pressed != []
    ensures var n := |pressed| - 1;
      var edge := pressed[n] in unique;
      var s := Lookup(dictionary, pressed[n]);
      && EdgeActions(dictionary, pressed, unique)
         == (if edge then EdgeActions(dictionary, pressed[..n], unique) + s
             else EdgeActions(dictionary, pressed[..n], unique))
      && StampedActions(d0, dictionary, pressed, unique, now)
         == StampedActions(d0, dictionary, pressed[..n], unique, now) + StampAdds(d0, s, edge, now)
  {
  }

  lemma KeyPressesLast(d0: Dispatch, dictionary: map<Keybind, set<Action>>,
                       pressed: seq<Keybind>, orders: seq<seq<Action>>,
                       unique: set<Keybind>, now: int, track: Track)
    requires ValidOrders(dictionary, pressed, orders) && pressed != []
    requires var n := |pressed| - 1;
      Reached(d0, KeyPresses(d0, pressed[..n], orders[..n], unique, now, track),
              EdgeActions(dictionary, pressed[..n], unique),
              StampedActions(d0, dictionary, pressed[..n], unique, now), now)
    ensures Reached(d0, KeyPresses(d0, pressed, orders, unique, now, track),
                    EdgeActions(dictionary, pressed, unique),
                    StampedActions(d0, dictionary, pressed, unique, now), now)
  {
    var n := |pressed| - 1;
    var edge := pressed[n] in unique;
    var s := Lookup(dictionary, pressed[n]);
    StampingOfEnumeration(d0, orders[n], s, edge, now);
    PollSetsOfLast(d0, dictionary, pressed, unique, now);
    ActionsStepReached(d0, KeyPresses(d0, pressed[..n], orders[..n], unique, now, track),
                       EdgeActions(dictionary, pressed[..n], unique),
                       StampedActions(d0, dictionary, pressed[..n], unique, now),
                       orders[n], edge, now, track);
  }

  lemma {:induction false} KeyPressesReached(d0: Dispatch, dictionary: map<Keybind, set<Action>>,
                                             pressed: seq<Keybind>, orders: seq<seq<Action>>,
                                             unique: set<Keybind>, now: int, track: Track)
    requires ValidOrders(dictionary, pressed, orders)
    ensures Reached(d0, KeyPresses(d0, pressed, orders, unique, now, track),
                    EdgeActions(dictionary, pressed, unique),
                    StampedActions(d0, dictionary, pressed, unique, now), now)
    decreases |pressed|
  {
    if pressed != [] {
      var n := |pressed| - 1;
      ValidOrdersPrefix(dictionary, pressed, orders, n);
      KeyPressesReached(d0, dictionary, pressed[..n], orders[..n], unique, now, track);
      KeyPressesLast(d0, dictionary, pressed, orders, unique, now, track);
    }
  }

  /** After the pass over the pressed keybinds, whatever order the actions of each
      keybind were visited in: the press time of exactly the edge-pressed actions
      is `now`; the dispatch time of exactly the handled actions that were
      edge-pressed, or held while they could repeat at the start of the poll, is
      `now`; every other record is as it was, and effects were only appended. */
  lemma KeyPressesTiming(d: Dispatch, dictionary: map<Keybind, set<Action>>,
                         pressed: seq<Keybind>, orders: seq<seq<Action>>,
                         unique: set<Keybind>, now: int, track: Track)
    requires ValidOrders(dictionary, pressed, orders)
    ensures var r := KeyPresses(d, pressed, orders, unique, now, track);
      && d.effects <= r.effects
      && Stamped(d.lastPress, r.lastPress, EdgeActions(dictionary, pressed, unique), now)
      && Stamped(d.lastTime, r.lastTime, StampedActions(d, dictionary, pressed, unique, now), now)
  {
    KeyPressesReached(d, dictionary, pressed, orders, unique, now, track);
  }

  /** A pressed keybind with no entry in the dictionary dispatches nothing and
      leaves the records alone, fresh press or not. */
  lemma UnboundKeybindIgnored(d: Dispatch, dictionary: map<Keybind, set<Action>>, k: Keybind,
                              order: seq<Action>, edge: bool, now: int, track: Track)
    requires k !in dictionary && IsEnumeration(order, Lookup(dictionary, k))
    ensures ActionsStep(d, order, edge, now, track) == d
  {
    assert forall i :: 0 <= i < |order| ==> order[i] in order;
  }

  lemma KeyPressesAppend(d: Dispatch, pressed: seq<Keybind>, orders: seq<seq<Action>>, k: Keybind, order: seq<Action>,
                         unique: set<Keybind>, now: int, track: Track)
    requires |orders| == |pressed|
    ensures KeyPresses(d, pressed + [k], orders + [order], unique, now, track)
         == ActionsStep(KeyPresses(d, pressed, orders, unique, now, track), order, k in unique, now, track)
  {
    assert (pressed + [k])[..|pressed|] == pressed;
    assert (orders + [order])[..|pressed|] == orders;
  }

  /** An unbound keybind anywhere among the pressed ones changes nothing: the poll
      is the same as the poll without it. */
  lemma {:induction false} UnboundKeybindAmongOthers(d: Dispatch, dictionary: map<Keybind, set<Action>>,
                                                     before: seq<Keybind>, ordersBefore: seq<seq<Action>>,
                                                     k: Keybind, order: seq<Action>,
                                                     after: seq<Keybind>, ordersAfter: seq<seq<Action>>,
                                                     unique: set<Keybind>, now: int, track: Track)
    requires |ordersBefore| == |before| && |ordersAfter| == |after|
    requires k !in dictionary && IsEnumeration(order, Lookup(dictionary, k))
    ensures KeyPresses(d, before + [k] + after, ordersBefore + [order] + ordersAfter, unique, now, track)
         == KeyPresses(d, before + after, ordersBefore + ordersAfter, unique, now, track)
    decreases |after|
  {
    if after == [] {
      assert before + [k] + after == before + [k];
      assert ordersBefore + [order] + ordersAfter == ordersBefore + [order];
      assert before + after == before && ordersBefore + ordersAfter == ordersBefore;
      KeyPressesAppend(d, before, ordersBefore, k, order, unique, now, track);
      UnboundKeybindIgnored(KeyPresses(d, before, ordersBefore, unique, now, track), dictionary, k, order, k in unique, now, track);
    } else {
      var n := |after| - 1;
      UnboundKeybindAmongOthers(d, dictionary, before, ordersBefore, k, order, after[..n], ordersAfter[..n], unique, now, track);
      assert before + [k] + after == (before + [k] + after[..n]) + [after[n]];
      assert ordersBefore + [order] + ordersAfter == (ordersBefore + [order] + ordersAfter[..n]) + [ordersAfter[n]];
      assert before + after == (before + after[..n]) + [after[n]];
      assert ordersBefore + ordersAfter == (ordersBefore + ordersAfter[..n]) + [ordersAfter[n]];
      KeyPressesAppend(d, before + [k] + after[..n], ordersBefore + [order] + ordersAfter[..n], after[n], ordersAfter[n], unique, now, track);
      KeyPressesAppend(d, before + after[..n], ordersBefore + ordersAfter[..n], after[n], ordersAfter[n], unique, now, track);
    }
  }

  /** Keybinds with no entry in the dictionary dispatch nothing: a poll in which
      no pressed keybind is bound leaves the records and the effects as they were. */
  lemma {:induction false} UnboundKeybindsIgnored(d: Dispatch, dictionary: map<Keybind, set<Action>>,
                                                  pressed: seq<Keybind>, orders: seq<seq<Action>>,
                                                  unique: set<Keybind>, now: int, track: Track)
    requires ValidOrders(dictionary, pressed, orders)
    requires forall i :: 0 <= i < |pressed| ==> pressed[i] !in dictionary
    ensures KeyPresses(d, pressed, orders, unique, now, track) == d
    decreases |pressed|
  {
    if pressed != [] {
      var n := |pressed| - 1;
      ValidOrdersPrefix(dictionary, pressed, orders, n);
      UnboundKeybindsIgnored(d, dictionary, pressed[..n], orders[..n], unique, now, track);
      assert IsEnumeration(orders[n], {});
    }
  }

  /** The release pass over an empty set of actions fires nothing. */
  lemma ReleasesOfNothing(d: Dispatch, order: seq<Action>, released: set<Action>, now: int, track: Track)
    requires IsEnumeration(order, HoldAndReleaseActions)
    ensures Releases(d, order, released, now, track) == d
  {
    assert forall i :: 0 <= i < |order| ==> order[i] in order;
  }

  // ---------------------------------------------------------------------------
  // The input manager

  class EditorInputManager {
    /** The reverse keybind dictionary: keybind to the actions bound to it. */
    const keybindDictionary: map<Keybind, set<Action>>
    var previousKeyState: KeyState
    var lastActionPress: map<Action, int>
    var lastActionTime: map<Action, int>
    /** The calls made on the editor screen, oldest first. */
    var effects: seq<Effect>

    function State(): Dispatch
      reads this
    {
      Dispatch(lastActionPress, lastActionTime, effects)
    }

    constructor (dictionary: map<Keybind, set<Action>>, keys: KeyState)
      ensures keybindDictionary == dictionary && previousKeyState == keys
      ensures lastActionPress == map[] && lastActionTime == map[] && effects == []
    {
      keybindDictionary := dictionary;
      previousKeyState := keys;
      lastActionPress := map[];
      lastActionTime := map[];
      effects := [];
    }

    /** One poll. `openDialogs` and `imGuiHovered` are the blocking-surface reads;
        `pressed`/`unique` are the keybinds held and freshly pressed in `keyState`;
        `released` the actions whose keybind was just released; `now` the game clock.
        The ghost result holds the order the actions of each keybind were visited in. */
    method HandleInput(openDialogs: nat, imGuiHovered: bool, keyState: KeyState,
                       pressed: seq<Keybind>, unique: set<Keybind>, released: set<Action>,
                       now: int, track: Track)
      returns (ghost orders: seq<seq<Action>>)
      modifies this
      ensures openDialogs != 0 || imGuiHovered ==>
        previousKeyState == old(previousKeyState) && State() == old(State())
      ensures openDialogs == 0 && !imGuiHovered ==>
        && previousKeyState == keyState
        && ValidOrders(keybindDictionary, pressed, orders)
        && State() == KeyPresses(old(State()), pressed, orders, unique, now, track)
    {
      orders := [];
      if openDialogs != 0 { return; }
      if imGuiHovered { return; }

      orders := HandleKeyPresses(keyState, pressed, unique, now, track);
      HandleKeyReleasesAfterHoldAction(released, now, track);
    }

    method HandleKeyPresses(keyState: KeyState, pressed: seq<Keybind>, unique: set<Keybind>,
                            now: int, track: Track)
      returns (ghost orders: seq<seq<Action>>)
      modifies this
      ensures previousKeyState == keyState
      ensures ValidOrders(keybindDictionary, pressed, orders)
      ensures State() == KeyPresses(old(State()), pressed, orders, unique, now, track)
    {
      orders := [];
      var i := 0;
      while i < |pressed|
        invariant 0 <= i <= |pressed| && |orders| == i
        invariant ValidOrders(keybindDictionary, pressed[..i], orders)
        invariant State() == KeyPresses(old(State()), pressed[..i], orders, unique, now, track)
      {
        var keybind := pressed[i];
        ghost var order: seq<Action> := [];
        ghost var before := State();
        if keybind in keybindDictionary {
          var actions := keybindDictionary[keybind];
          var rest := actions;
          while rest != {}
            invariant rest <= actions
            invariant forall a :: a in order <==> a in actions && a !in rest
            invariant forall p, q :: 0 <= p < q < |order| ==> order[p] != order[q]
            invariant State() == ActionsStep(before, order, keybind in unique, now, track)
            decreases rest
          {
            var action :| action in rest;
            ghost var step := State();
            // The edge / repeat / hold cascade, with its three calls folded into
            // one: only the hold path passes isKeyPress = false.
            var edge := keybind in unique;
            var repeat := !edge && CanRepeat(lastActionPress, lastActionTime, action, now);
            var hold := !edge && !repeat && CanHold(lastActionTime, action, now);
            if edge || repeat || hold {
              HandleAction(action, now, track, !hold);
            }
            if edge {
              lastActionPress := lastActionPress[action := now];
            }
            assert State() == ActionStep(step, action, edge, now, track);
            ActionsStepSnoc(before, order, action, edge, now, track);
            order := order + [action];
            rest := rest - {action};
          }
        }
        assert IsEnumeration(order, Lookup(keybindDictionary, keybind));
        KeyPressesSnoc(old(State()), keybindDictionary, pressed, i, orders, order, unique, now, track);
        orders := orders + [order];
        i := i + 1;
      }
      assert pressed[..i] == pressed;
      previousKeyState := keyState;
    }

    /** The release pass over the hold-and-release actions; since there are none,
        it changes nothing. */
    method HandleKeyReleasesAfterHoldAction(released: set<Action>, now: int, track: Track)
      modifies this
      ensures previousKeyState == old(previousKeyState)
      ensures State() == old(State())
    {
      ghost var order := FireReleases(HoldAndReleaseActions, released, now, track);
      ReleasesOfNothing(old(State()), order, released, now, track);
    }

    /** Visit each of `actions` once, in any order, and fire those in `released`
        as release events. */
    method FireReleases(actions: set<Action>, released: set<Action>, now: int, track: Track)
      returns (ghost order: seq<Action>)
      modifies this
      ensures IsEnumeration(order, actions)
      ensures previousKeyState == old(previousKeyState)
      ensures State() == Releases(old(State()), order, released, now, track)
    {
      order := [];
      var rest := actions;
      while rest != {}
        invariant rest <= actions
        invariant forall a :: a in order <==> a in actions && a !in rest
        invariant forall p, q :: 0 <= p < q < |order| ==> order[p] != order[q]
        invariant previousKeyState == old(previousKeyState)
        invariant State() == Releases(old(State()), order, released, now, track)
        decreases rest
      {
        var action :| action in rest;
        if action in released {
          HandleAction(action, now, track, false, true);
        }
        assert (order + [action])[..|order|] == order;
        order := order + [action];
        rest := rest - {action};
      }
    }

    /** Make the screen call of `action` and stamp its dispatch time; an action
        the switch has no case for returns before the stamp. The flags are passed
        on as in the screen's contract; no case reads them. */
    method HandleAction(action: Action, now: int, track: Track, isKeyPress: bool := true, isRelease: bool := false)
      modifies this`lastActionTime, this`effects
      ensures State() == Fire(old(State()), action, now, track)
    {
      match HandlerFor(action, track) {
        case Unhandled =>
          return;
        case Handled(calls) =>
          effects := effects + calls;
      }
      lastActionTime := lastActionTime[action := now];
    }
  }
}
