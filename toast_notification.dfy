/** The toast notifications: the list a page keeps (`useToast`) and one
    toast's own visibility, colour, icon and auto-close. Toast ids are drawn
    at random by the source; here the caller supplies them. */
module Toasts {
  import opened Common

  datatype ToastType = Success | Error | Info | Loading

  const DEFAULT_TYPE: ToastType := Info
  const DEFAULT_DURATION: int := 3000

  /** A toast's props; `onClose` is the list's own removal of the toast's
      id, modelled by `ToastList.DismissToast`. */
  datatype ToastProps = ToastProps(message: string, kind: ToastType, duration: int)

  /** `Partial<ToastProps>`: a `None` field is a key the update leaves out. */
  datatype PropsPatch = PropsPatch(message: Option<string>, kind: Option<ToastType>, duration: Option<int>)

  datatype Entry = Entry(id: string, props: ToastProps)

  /** `{ ...t.props, ...props }`: each key the patch holds wins. */
  function Merge(p: ToastProps, patch: PropsPatch): (r: ToastProps)
    ensures r.message == (if patch.message.Some? then patch.message.value else p.message)
    ensures r.kind == (if patch.kind.Some? then patch.kind.value else p.kind)
    ensures r.duration == (if patch.duration.Some? then patch.duration.value else p.duration)
  {
    ToastProps(
      if patch.message.Some? then patch.message.value else p.message,
      if patch.kind.Some? then patch.kind.value else p.kind,
      if patch.duration.Some? then patch.duration.value else p.duration)
  }

  /** An empty patch changes nothing, and a later patch overrides an
      earlier one key by key. */
  lemma MergeLaws(p: ToastProps, a: PropsPatch, b: PropsPatch)
    ensures Merge(p, PropsPatch(None, None, None)) == p
    ensures Merge(Merge(p, a), b) ==
            Merge(p, PropsPatch(if b.message.Some? then b.message else a.message,
                                if b.kind.Some? then b.kind else a.kind,
                                if b.duration.Some? then b.duration else a.duration))
  {
  }

  /** `current.map(t => t.id === id ? { ...t, props: merged } : t)`. */
  function Updated(toasts: seq<Entry>, id: string, patch: PropsPatch): (r: seq<Entry>)
    ensures |r| == |toasts|
    ensures forall i | 0 <= i < |r| :: r[i].id == toasts[i].id
    ensures forall i | 0 <= i < |r| :: toasts[i].id != id ==> r[i] == toasts[i]
    ensures forall i | 0 <= i < |r| :: toasts[i].id == id ==> r[i].props == Merge(toasts[i].props, patch)
  {
    seq(|toasts|, i requires 0 <= i < |toasts| =>
      if toasts[i].id == id then Entry(id, Merge(toasts[i].props, patch)) else toasts[i])
  }

  /** Updating an id no toast has leaves the list as it is. */
  lemma UpdateUnknownId(toasts: seq<Entry>, id: string, patch: PropsPatch)
    requires forall i | 0 <= i < |toasts| :: toasts[i].id != id
    ensures Updated(toasts, id, patch) == toasts
  {
  }

  /** `current.filter(t => t.id !== id)`. */
  function Without(toasts: seq<Entry>, id: string): (r: seq<Entry>)
    ensures forall t :: t in r <==> t in toasts && t.id != id
    ensures IsSubsequence(r, toasts)
  {
    FilterIsSubsequence(toasts, (t: Entry) => t.id != id);
    Filter(toasts, (t: Entry) => t.id != id)
  }

  /** Closing keeps every toast of another id as often as the list holds it. */
  lemma WithoutCounts(toasts: seq<Entry>, id: string)
    ensures forall t :: multiset(Without(toasts, id))[t] == if t.id != id then multiset(toasts)[t] else 0
  {
    FilterCounts(toasts, (t: Entry) => t.id != id);
  }

  /** Showing a toast under a fresh id and then closing it gives back the
      list as it was. */
  lemma {:induction false} ShowThenClose(toasts: seq<Entry>, e: Entry)
    requires forall i | 0 <= i < |toasts| :: toasts[i].id != e.id
    ensures Without(toasts + [e], e.id) == toasts
  {
    if toasts == [] {
      assert Without([e], e.id) == Without([], e.id);
    } else {
      var rest := toasts[1..];
      ShowThenClose(rest, e);
      assert (toasts + [e])[1..] == rest + [e];
      assert Without(toasts + [e], e.id) == [toasts[0]] + Without(rest + [e], e.id);
      assert [toasts[0]] + rest == toasts;
    }
  }

  /** Closing leaves the other toasts' updates in place: dismissing one id
      and updating another commute. */
  lemma {:induction false} DismissUpdateCommute(toasts: seq<Entry>, gone: string, id: string, patch: PropsPatch)
    requires gone != id
    ensures Without(Updated(toasts, id, patch), gone) == Updated(Without(toasts, gone), id, patch)
  {
    if toasts != [] {
      var t, rest := toasts[0], toasts[1..];
      var u := Updated(toasts, id, patch);
      DismissUpdateCommute(rest, gone, id, patch);
      UpdatedCons(toasts, id, patch);
      assert u[1..] == Updated(rest, id, patch);
      WithoutCons(u, gone);
      WithoutCons(toasts, gone);
      if t.id != gone {
        UpdatedCons([t] + Without(rest, gone), id, patch);
        assert ([t] + Without(rest, gone))[1..] == Without(rest, gone);
      }
    }
  }

  /** One step of `Updated`. */
  lemma UpdatedCons(toasts: seq<Entry>, id: string, patch: PropsPatch)
    requires toasts != []
    ensures Updated(toasts, id, patch) ==
            [if toasts[0].id == id then Entry(id, Merge(toasts[0].props, patch)) else toasts[0]] +
            Updated(toasts[1..], id, patch)
  {
  }

  /** One step of `Without`. */
  lemma WithoutCons(toasts: seq<Entry>, id: string)
    requires toasts != []
    ensures Without(toasts, id) == (if toasts[0].id != id then [toasts[0]] else []) + Without(toasts[1..], id)
  {
  }

  /** The list `useToast` keeps. */
  class ToastList {
    var toasts: seq<Entry>

    constructor()
      ensures toasts == []
    {
      toasts := [];
    }

    /** `showToast`: appends one toast under `id` and returns the id. */
    method ShowToast(id: string, message: string, kind: ToastType := DEFAULT_TYPE,
                     duration: int := DEFAULT_DURATION) returns (r: string)
      modifies this
      ensures r == id
      ensures toasts == old(toasts) + [Entry(id, ToastProps(message, kind, duration))]
    {
      toasts := toasts + [Entry(id, ToastProps(message, kind, duration))];
      r := id;
    }

    /** `updateToast`. */
    method UpdateToast(id: string, patch: PropsPatch)
      modifies this
      ensures toasts == Updated(old(toasts), id, patch)
    {
      toasts := Updated(toasts, id, patch);
    }

    /** `dismissToast`, and the `onClose` each shown toast carries: both
      run the same filter on the toast's id. */
    method DismissToast(id: string)
      modifies this
      ensures toasts == Without(old(toasts), id)
    {
      toasts := Without(toasts, id);
    }
  }

  /** `if (duration && type !== "loading")`: a zero duration or a loading
      toast stays until closed. */
  predicate AutoCloses(p: ToastProps) {
    p.duration != 0 && p.kind != Loading
  }

  /** A toast shown with the defaults closes by itself; one turned into a
      loading toast does not until updated again. */
  lemma DefaultToastAutoCloses(message: string, patch: PropsPatch)
    ensures AutoCloses(ToastProps(message, DEFAULT_TYPE, DEFAULT_DURATION))
    ensures patch.kind == Some(Loading) ==> !AutoCloses(Merge(ToastProps(message, DEFAULT_TYPE, DEFAULT_DURATION), patch))
  {
  }

  /** `getBackgroundColor`. */
  function BackgroundColor(kind: ToastType): (c: string)
    ensures kind == Success ==> c == "bg-green-100 border-green-500 text-green-800"
    ensures kind == Error ==> c == "bg-red-100 border-red-500 text-red-800"
    ensures kind == Loading ==> c == "bg-blue-100 border-blue-500 text-blue-800"
    ensures kind == Info ==> c == "bg-gray-100 border-gray-500 text-gray-800"
  {
    match kind
    case Success => "bg-green-100 border-green-500 text-green-800"
    case Error => "bg-red-100 border-red-500 text-red-800"
    case Loading => "bg-blue-100 border-blue-500 text-blue-800"
    case _ => "bg-gray-100 border-gray-500 text-gray-800"
  }

  /** `getIcon`: a glyph, or the spinner of a loading toast. */
  datatype Icon = Glyph(glyph: string) | Spinner

  function IconOf(kind: ToastType): (i: Icon)
    ensures i == Spinner <==> kind == Loading
    ensures kind == Success ==> i == Glyph("✓")
    ensures kind == Error ==> i == Glyph("✕")
    ensures kind == Info ==> i == Glyph("ℹ")
  {
    match kind
    case Success => Glyph("✓")
    case Error => Glyph("✕")
    case Loading => Spinner
    case _ => Glyph("ℹ")
  }

  /** No two kinds share an icon. */
  lemma KindsLookDistinct(k1: ToastType, k2: ToastType)
    requires k1 != k2
    ensures IconOf(k1) != IconOf(k2)
  {
    var i1, i2 := IconOf(k1), IconOf(k2);
    assert i1.Spinner? || i2.Spinner? || i1.glyph[0] != i2.glyph[0];
  }

  /** One toast's own state. */
  class ToastView {
    const props: ToastProps
    const hasOnClose: bool
    var isVisible: bool

    constructor(props: ToastProps, hasOnClose: bool)
      ensures this.props == props && this.hasOnClose == hasOnClose && isVisible
    {
      this.props := props;
      this.hasOnClose := hasOnClose;
      isVisible := true;
    }

    /** `handleClose`, from the close button or the auto-close timer: hides
      the toast and reports whether `onClose` is scheduled. */
    method HandleClose() returns (scheduleOnClose: bool)
      modifies this`isVisible
      ensures !isVisible
      ensures scheduleOnClose == hasOnClose
    {
      isVisible := false;
      scheduleOnClose := hasOnClose;
    }

    /** What is rendered: nothing once hidden. */
    function Rendered(): (r: Option<(string, Icon, string)>)
      reads this
      ensures r.Some? <==> isVisible
      ensures r.Some? ==> r.value == (BackgroundColor(props.kind), IconOf(props.kind), props.message)
    {
      if isVisible then Some((BackgroundColor(props.kind), IconOf(props.kind), props.message)) else None
    }
  }
}
