/**
 * The toast queue of `ToastProvider` (frontend/src/components/ui/sonner.jsx):
 * adding a toast, removing one by id, expiry, the visible slice and the class
 * and icon fallbacks. The clock is a parameter and timers are left out: an
 * expiry is modelled as the removal it performs when it fires.
 */
module Toasts {
  import opened Wrappers

  /** One queued toast; `kind` is its `type`, `icon` a custom icon if one was given. */
  datatype Toast = Toast(id: string, message: string, kind: string, icon: Option<string>, duration: int)

  /** The provider's props. */
  datatype Config = Config(position: string, duration: int, maxToasts: int)

  const DefaultConfig: Config := Config("bottom-right", 5000, 3)

  /** The options a caller passes to `toast` or to one of the typed helpers. */
  datatype Options = Options(kind: Option<string>, icon: Option<string>, duration: Option<int>)

  // Decimal rendering of `Date.now()`, which becomes the toast id.

  function DigitChar(d: nat): (c: char)
    requires d < 10
    ensures '0' <= c <= '9'
  {
    ['0', '1', '2', '3', '4', '5', '6', '7', '8', '9'][d]
  }

  function DigitValue(c: char): nat {
    if '0' <= c <= '9' then (c - '0') as nat else 0
  }

  /** `n.toString()` for a natural number: its decimal digits, most significant first. */
  function DecimalString(n: nat): (s: string)
    ensures 1 <= |s|
    ensures forall i :: 0 <= i < |s| ==> '0' <= s[i] <= '9'
  {
    if n < 10 then [DigitChar(n)] else DecimalString(n / 10) + [DigitChar(n % 10)]
  }

  /** The value of a string of decimal digits. */
  function ParseDecimal(s: string): nat {
    if s == [] then 0 else 10 * ParseDecimal(s[..|s| - 1]) + DigitValue(s[|s| - 1])
  }

  /** Parsing the rendered digits gives the number back. */
  lemma {:induction false} DecimalRoundTrip(n: nat)
    ensures ParseDecimal(DecimalString(n)) == n
  {
    var s := DecimalString(n);
    if n < 10 {
      assert s[..0] == [];
    } else {
      DecimalRoundTrip(n / 10);
      assert s[..|s| - 1] == DecimalString(n / 10);
    }
  }

  /** Two different clock readings give two different ids. */
  lemma DistinctClocksDistinctIds(a: nat, b: nat)
    ensures a != b ==> DecimalString(a) != DecimalString(b)
  {
    DecimalRoundTrip(a);
    DecimalRoundTrip(b);
  }

  /** `type = "info"`: the default applies only when no type is given. */
  function KindOrInfo(kind: Option<string>): (k: string)
    ensures kind.Some? ==> k == kind.value
    ensures kind.None? ==> k == "info"
  {
    kind.GetOr("info")
  }

  /** `customDuration || duration`: a missing or zero custom duration falls back to the default. */
  function EffectiveDuration(custom: Option<int>, default: int): (d: int)
    ensures custom.Some? && custom.value != 0 ==> d == custom.value
    ensures custom.None? || custom.value == 0 ==> d == default
  {
    if custom.Some? && custom.value != 0 then custom.value else default
  }

  /** The toast that `toast(...)` builds at clock reading `now`. */
  function NewToast(cfg: Config, now: nat, message: string, options: Options): (t: Toast)
    ensures t.id == DecimalString(now) && t.message == message && t.icon == options.icon
    ensures t.kind == KindOrInfo(options.kind)
    ensures t.duration == EffectiveDuration(options.duration, cfg.duration)
  {
    Toast(DecimalString(now), message, KindOrInfo(options.kind), options.icon,
          EffectiveDuration(options.duration, cfg.duration))
  }

  /** `toast(...)` (sonner.jsx:34-46): the new toast goes to the end; the entries
      already queued stay, in order, in front of it. Returns the new queue and the id. */
  function AddToast(queue: seq<Toast>, cfg: Config, now: nat, message: string, options: Options)
    : (r: (seq<Toast>, string))
    ensures |r.0| == |queue| + 1 && r.0[..|queue|] == queue
    ensures r.0[|queue|] == NewToast(cfg, now, message, options)
    ensures r.1 == r.0[|queue|].id == DecimalString(now)
  {
    var t := NewToast(cfg, now, message, options);
    (queue + [t], t.id)
  }

  /** `success`, `error`, `warning` and `info` (sonner.jsx:57-60): the helper's type
      and message argument, unless the options object carries a `type` or a
      `message` of its own (`optionMessage`), since it is spread after them. */
  function AddTyped(queue: seq<Toast>, cfg: Config, now: nat, kind: string, message: string,
                    options: Options, optionMessage: Option<string>)
    : (r: (seq<Toast>, string))
    ensures |r.0| == |queue| + 1 && r.0[..|queue|] == queue
    ensures options.kind.None? ==> r.0[|queue|].kind == kind
    ensures options.kind.Some? ==> r.0[|queue|].kind == options.kind.value
    ensures optionMessage.None? ==> r.0[|queue|].message == message
    ensures optionMessage.Some? ==> r.0[|queue|].message == optionMessage.value
    ensures r.1 == r.0[|queue|].id == DecimalString(now)
  {
    AddToast(queue, cfg, now, optionMessage.GetOr(message),
             options.(kind := if options.kind.Some? then options.kind else Some(kind)))
  }

  /** `removeToast(id)` (sonner.jsx:49-51): keep every toast whose id differs. */
  function Remove(queue: seq<Toast>, id: string): (r: seq<Toast>)
    ensures |r| <= |queue|
    ensures forall t :: t in r <==> t in queue && t.id != id
  {
    if queue == [] then []
    else if queue[|queue| - 1].id == id then Remove(queue[..|queue| - 1], id)
    else Remove(queue[..|queue| - 1], id) + [queue[|queue| - 1]]
  }

  /** Removal works piecewise, so the survivors keep their relative order. */
  lemma {:induction false} RemoveConcat(a: seq<Toast>, b: seq<Toast>, id: string)
    ensures Remove(a + b, id) == Remove(a, id) + Remove(b, id)
    decreases |b|
  {
    if b == [] {
      assert a + b == a;
    } else {
      var last := b[|b| - 1];
      assert (a + b)[..|a + b| - 1] == a + b[..|b| - 1];
      RemoveConcat(a, b[..|b| - 1], id);
    }
  }

  /** Removing an id no toast carries changes nothing. */
  lemma {:induction false} RemoveAbsent(queue: seq<Toast>, id: string)
    requires forall i :: 0 <= i < |queue| ==> queue[i].id != id
    ensures Remove(queue, id) == queue
  {
    if queue != [] {
      var init := queue[..|queue| - 1];
      assert queue[|queue| - 1].id != id;
      RemoveAbsent(init, id);
      assert queue == init + [queue[|queue| - 1]];
    }
  }

  /** Removing twice is removing once. */
  lemma RemoveIdempotent(queue: seq<Toast>, id: string)
    ensures Remove(Remove(queue, id), id) == Remove(queue, id)
  {
    var r := Remove(queue, id);
    assert forall i :: 0 <= i < |r| ==> r[i] in r;
    RemoveAbsent(r, id);
  }

  /** Removing the ids `a` and `b` one after the other keeps what carries neither. */
  lemma {:induction false} RemoveTwice(queue: seq<Toast>, a: string, b: string)
    ensures Remove(Remove(queue, a), b) == RemoveEither(queue, a, b)
  {
    if queue != [] {
      var init := queue[..|queue| - 1];
      var last := queue[|queue| - 1];
      RemoveTwice(init, a, b);
      if last.id != a {
        assert Remove(queue, a) == Remove(init, a) + [last];
        assert Remove(queue, a)[..|Remove(queue, a)| - 1] == Remove(init, a);
      }
    }
  }

  /** Keep what carries neither id. */
  function RemoveEither(queue: seq<Toast>, a: string, b: string): seq<Toast> {
    if queue == [] then []
    else if queue[|queue| - 1].id == a || queue[|queue| - 1].id == b then RemoveEither(queue[..|queue| - 1], a, b)
    else RemoveEither(queue[..|queue| - 1], a, b) + [queue[|queue| - 1]]
  }

  /** The order of two removals does not matter. */
  lemma RemoveCommutes(queue: seq<Toast>, a: string, b: string)
    ensures Remove(Remove(queue, a), b) == Remove(Remove(queue, b), a)
  {
    RemoveTwice(queue, a, b);
    RemoveTwice(queue, b, a);
    EitherSymmetric(queue, a, b);
  }

  lemma {:induction false} EitherSymmetric(queue: seq<Toast>, a: string, b: string)
    ensures RemoveEither(queue, a, b) == RemoveEither(queue, b, a)
  {
    if queue != [] {
      EitherSymmetric(queue[..|queue| - 1], a, b);
    }
  }

  /** How many queued toasts carry `id`. */
  function IdCount(queue: seq<Toast>, id: string): nat {
    if queue == [] then 0
    else IdCount(queue[..|queue| - 1], id) + (if queue[|queue| - 1].id == id then 1 else 0)
  }

  /** Removal takes out exactly as many toasts as carry the id. */
  lemma {:induction false} RemoveCount(queue: seq<Toast>, id: string)
    ensures |Remove(queue, id)| + IdCount(queue, id) == |queue|
  {
    if queue != [] {
      RemoveCount(queue[..|queue| - 1], id);
    }
  }

  /** The timer set up by `toast` (sonner.jsx:41-43): when it fires, the toast with
      the given id is removed exactly as `removeToast` would. */
  function Expire(queue: seq<Toast>, id: string): (r: seq<Toast>)
    ensures forall t :: t in r <==> t in queue && t.id != id
  {
    Remove(queue, id)
  }

  /** Adding a toast and letting it expire restores a queue that held no toast with
      its id. */
  lemma AddThenExpire(queue: seq<Toast>, cfg: Config, now: nat, message: string, options: Options)
    requires forall i :: 0 <= i < |queue| ==> queue[i].id != DecimalString(now)
    ensures var added := AddToast(queue, cfg, now, message, options);
      Expire(added.0, added.1) == queue
  {
    var added := AddToast(queue, cfg, now, message, options);
    assert added.0 == queue + [added.0[|queue|]];
    RemoveConcat(queue, [added.0[|queue|]], added.1);
    RemoveAbsent(queue, added.1);
  }

  /** Two toasts added at the same clock reading share their id, so the first one's
      expiry removes the second as well and leaves the earlier queue as removal of
      that id leaves it. */
  lemma SameInstantExpiresBoth(queue: seq<Toast>, cfg: Config, now: nat, m1: string, o1: Options, m2: string, o2: Options)
    ensures var first := AddToast(queue, cfg, now, m1, o1);
      var second := AddToast(first.0, cfg, now, m2, o2);
      && second.1 == first.1
      && Expire(second.0, first.1) == Remove(queue, first.1)
  {
    var first := AddToast(queue, cfg, now, m1, o1);
    var second := AddToast(first.0, cfg, now, m2, o2);
    assert second.0 == queue + [first.0[|queue|], second.0[|queue| + 1]];
    RemoveConcat(queue, [first.0[|queue|], second.0[|queue| + 1]], first.1);
    assert Remove([first.0[|queue|], second.0[|queue| + 1]], first.1) == [] by {
      var pair := [first.0[|queue|], second.0[|queue| + 1]];
      assert pair[..1] == [first.0[|queue|]];
    }
  }

  /** `toasts.slice(0, maxToasts)` (sonner.jsx:75): the oldest toasts, at most
      `maxToasts` of them; a negative count drops that many from the end, as
      `slice` does. */
  function Visible(queue: seq<Toast>, maxToasts: int): (r: seq<Toast>)
    ensures |r| <= |queue| && r == queue[..|r|]
    ensures 0 <= maxToasts ==> |r| == if maxToasts <= |queue| then maxToasts else |queue|
    ensures maxToasts < 0 ==> |r| == if |queue| + maxToasts < 0 then 0 else |queue| + maxToasts
  {
    var end := if maxToasts >= 0 then (if maxToasts <= |queue| then maxToasts else |queue|)
               else if |queue| + maxToasts < 0 then 0 else |queue| + maxToasts;
    queue[..end]
  }

  /** While `maxToasts` toasts are queued, a new toast is not shown. */
  lemma FullQueueHidesNewToast(queue: seq<Toast>, cfg: Config, now: nat, message: string, options: Options)
    requires 0 <= cfg.maxToasts <= |queue|
    ensures Visible(AddToast(queue, cfg, now, message, options).0, cfg.maxToasts) == Visible(queue, cfg.maxToasts)
  {
    var added := AddToast(queue, cfg, now, message, options).0;
    assert added[..cfg.maxToasts] == queue[..cfg.maxToasts];
  }

  /** The position classes (sonner.jsx:24-31). */
  const Positions: map<string, string> := map[
    "top-right" := "top-0 right-0",
    "top-center" := "top-0 left-1/2 -translate-x-1/2",
    "top-left" := "top-0 left-0",
    "bottom-right" := "bottom-0 right-0",
    "bottom-center" := "bottom-0 left-1/2 -translate-x-1/2",
    "bottom-left" := "bottom-0 left-0"]

  /** The names every object literal inherits from `Object.prototype`. Looking one
      of them up in a table that lacks it gives a function (or, for `__proto__`,
      the prototype object), which is truthy, so a `||` fallback does not apply. */
  const InheritedNames: set<string> := {
    "constructor", "hasOwnProperty", "isPrototypeOf", "propertyIsEnumerable",
    "toLocaleString", "toString", "valueOf", "__defineGetter__", "__defineSetter__",
    "__lookupGetter__", "__lookupSetter__", "__proto__"}

  /** What `table[name]` yields on an object literal: its own entry, an inherited
      member, or `undefined`. */
  datatype Lookup = Own(value: string) | Inherited(name: string) | Absent

  function Property(table: map<string, string>, name: string): (l: Lookup)
    ensures l.Own? <==> name in table
    ensures l.Own? ==> l.value == table[name]
    ensures l.Inherited? <==> name !in table && name in InheritedNames
  {
    if name in table then Own(table[name])
    else if name in InheritedNames then Inherited(name)
    else Absent
  }

  /** `value || fallback`: an empty string and `undefined` are falsy, an inherited
      member is not. */
  function OrElse(l: Lookup, fallback: string): (r: Lookup)
    ensures l.Inherited? ==> r == l
    ensures l.Own? && l.value != "" ==> r == l
    ensures l.Absent? || l == Own("") ==> r == Own(fallback)
  {
    if l.Absent? || l == Own("") then Own(fallback) else l
  }

  /** `positions[position] || positions["bottom-right"]` (sonner.jsx:72): a listed
      position gets its classes, an inherited name passes its member on, and any
      other name gets the bottom-right classes. */
  function PositionClass(position: string): (c: Lookup)
    ensures position in Positions ==> c == Own(Positions[position])
    ensures position !in Positions && position !in InheritedNames ==> c == Own(Positions["bottom-right"])
    ensures position !in Positions && position in InheritedNames ==> c == Inherited(position)
  {
    OrElse(Property(Positions, position), Positions["bottom-right"])
  }

  /** The style classes per type (sonner.jsx:126-131), one literal piece per colour family. */
  function Palette(colour: string): string {
    "bg-" + colour + "-50 text-" + colour + "-800 border-" + colour + "-200 dark:bg-" + colour
      + "-900/30 dark:text-" + colour + "-300 dark:border-" + colour + "-800"
  }

  const Styles: map<string, string> := map[
    "info" := Palette("blue"),
    "success" := Palette("green"),
    "warning" := Palette("yellow"),
    "error" := Palette("red")]

  /** `styles[type] || styles.info` (sonner.jsx:162): the same fallback as the
      position's, to the info style. */
  function StyleClass(kind: string): (c: Lookup)
    ensures kind in Styles ==> c == Own(Styles[kind])
    ensures kind !in Styles && kind !in InheritedNames ==> c == Own(Styles["info"])
    ensures kind !in Styles && kind in InheritedNames ==> c == Inherited(kind)
  {
    OrElse(Property(Styles, kind), Styles["info"])
  }

  /** The default icon per type (sonner.jsx:134-139), by its component name. */
  const DefaultIcons: map<string, string> := map[
    "info" := "Info",
    "success" := "CheckCircle",
    "warning" := "AlertTriangle",
    "error" := "AlertCircle"]

  /** `icon || defaultIcons[type]` (sonner.jsx:168-172): a non-empty custom icon
      wins; otherwise the type's default icon. Unlike the style there is no `info`
      fallback, so an unknown type without a custom icon shows none (`Absent`). */
  function IconShown(t: Toast): (i: Lookup)
    ensures t.icon.Some? && t.icon.value != "" ==> i == Own(t.icon.value)
    ensures t.icon.None? || t.icon == Some("") ==>
      && (i.Own? <==> t.kind in DefaultIcons)
      && (i.Own? ==> i.value == DefaultIcons[t.kind])
      && (i.Absent? <==> t.kind !in DefaultIcons && t.kind !in InheritedNames)
  {
    if t.icon.Some? && t.icon.value != "" then Own(t.icon.value)
    else Property(DefaultIcons, t.kind)
  }

  /** A toast of a type that is neither listed nor inherited, without a custom
      icon, is styled as `info` but shows no icon at all. */
  lemma UnknownTypeStyledAsInfoWithoutIcon(t: Toast)
    requires t.kind !in Styles && t.kind !in InheritedNames
    requires t.icon.None? || t.icon == Some("")
    ensures StyleClass(t.kind) == Own(Styles["info"])
    ensures IconShown(t) == Absent
  {
    assert t.kind !in DefaultIcons;
  }
}
