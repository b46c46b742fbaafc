/**
 * The toast queue of next-web/src/app/_components/toast.tsx: the list a
 * `ToastProvider` holds, `addToast` with its default duration and its
 * decision to schedule an auto-removal, `removeToast`, the variant styling
 * fallback and `useToast`'s check for a provider. Ids come from outside
 * (the source draws them from `crypto.randomUUID` or the clock), so they
 * are parameters here.
 */
module Toast {
  import Wrappers

  datatype Variant = Success | Error | Info

  /** What a caller passes to `addToast`: a toast without its id. */
  datatype ToastInput = ToastInput(
    title: string,
    description: Wrappers.Option<string>,
    variant: Wrappers.Option<Variant>,
    duration: Wrappers.Option<int>)

  /** A toast as the provider stores it; the duration is always settled. */
  datatype ToastItem = ToastItem(
    id: string,
    title: string,
    description: Wrappers.Option<string>,
    variant: Wrappers.Option<Variant>,
    duration: int)

  /** A pending `window.setTimeout(() => removeToast(id), delay)`. */
  datatype Timer = Timer(id: string, delay: int)

  /** Milliseconds a toast stays when the caller gives no duration. */
  const DefaultDuration := 3500

  const MissingProviderMessage := "useToast must be used within a ToastProvider."

  /** `{ ...toast, id, duration }` with `duration = toast.duration ?? 3500`. */
  function Stored(toast: ToastInput, id: string): (t: ToastItem)
    ensures t.id == id && t.title == toast.title
    ensures t.description == toast.description && t.variant == toast.variant
    ensures toast.duration.Some? ==> t.duration == toast.duration.value
    ensures toast.duration.None? ==> t.duration == DefaultDuration
  {
    ToastItem(id, toast.title, toast.description, toast.variant, toast.duration.GetOr(DefaultDuration))
  }

  /**
   * The timer `addToast` schedules, if any: one that removes the new toast
   * after its duration, and only when that duration is positive.
   */
  function TimerFor(toast: ToastInput, id: string): (timer: Wrappers.Option<Timer>)
    ensures timer.Some? <==> (toast.duration.None? || toast.duration.value > 0)
    ensures timer.Some? ==> timer.value.id == id && timer.value.delay == Stored(toast, id).duration
  {
    var duration := Stored(toast, id).duration;
    if duration > 0 then Wrappers.Some(Timer(id, duration)) else Wrappers.None
  }

  /** `prev.filter((toast) => toast.id !== id)`. */
  function WithoutToast(l: seq<ToastItem>, id: string): (r: seq<ToastItem>)
    ensures |r| <= |l|
    ensures forall t :: t in r <==> t in l && t.id != id
    decreases |l|
  {
    if l == [] then []
    else (if l[0].id == id then [] else [l[0]]) + WithoutToast(l[1..], id)
  }

  predicate HasToast(l: seq<ToastItem>, id: string) {
    exists i :: 0 <= i < |l| && l[i].id == id
  }

  /** Removal works toast by toast, so the survivors keep their relative order. */
  lemma {:induction false} WithoutToastAppend(a: seq<ToastItem>, b: seq<ToastItem>, id: string)
    ensures WithoutToast(a + b, id) == WithoutToast(a, id) + WithoutToast(b, id)
    decreases |a|
  {
    if a == [] {
      assert a + b == b;
    } else {
      assert (a + b)[0] == a[0] && (a + b)[1..] == a[1..] + b;
      WithoutToastAppend(a[1..], b, id);
    }
  }

  /** Removing an id no toast carries leaves the list as it was. */
  lemma {:induction false} WithoutToastAbsent(l: seq<ToastItem>, id: string)
    requires !HasToast(l, id)
    ensures WithoutToast(l, id) == l
    decreases |l|
  {
    if l != [] {
      assert l[0].id != id;
      forall i | 0 <= i < |l[1..]| ensures l[1..][i].id != id {
        assert l[1..][i] == l[i + 1];
      }
      WithoutToastAbsent(l[1..], id);
    }
  }

  /** Removing the same id twice is removing it once. */
  lemma {:induction false} WithoutToastIdempotent(l: seq<ToastItem>, id: string)
    ensures WithoutToast(WithoutToast(l, id), id) == WithoutToast(l, id)
  {
    var r := WithoutToast(l, id);
    forall i | 0 <= i < |r| ensures r[i].id != id {
      assert r[i] in r;
    }
    WithoutToastAbsent(r, id);
  }

  /**
   * When the auto-removal of a toast added under a fresh id fires, the
   * list is back to what it was before the toast was added.
   */
  lemma {:induction false} AddThenExpire(l: seq<ToastItem>, toast: ToastInput, id: string)
    requires !HasToast(l, id)
    ensures WithoutToast(l + [Stored(toast, id)], id) == l
  {
    WithoutToastAppend(l, [Stored(toast, id)], id);
    WithoutToastAbsent(l, id);
    assert WithoutToast([Stored(toast, id)], id) == [] by {
      assert [Stored(toast, id)][1..] == [];
    }
  }

  const SuccessStyle := "border-emerald-200 bg-emerald-50 text-emerald-950"
  const ErrorStyle := "border-red-200 bg-red-50 text-red-950"
  const InfoStyle := "border-black/10 bg-white/90 text-[color:var(--ink)]"

  /** `variantStyles`: each variant has its own style, so a style names its variant. */
  function VariantStyle(v: Variant): (r: string)
    ensures r == SuccessStyle <==> v == Success
    ensures r == ErrorStyle <==> v == Error
    ensures r == InfoStyle <==> v == Info
  {
    match v
    case Success => SuccessStyle
    case Error => ErrorStyle
    case Info => InfoStyle
  }

  /** `variantStyles[toast.variant ?? "info"]`. */
  function Tone(t: ToastItem): (s: string)
    ensures t.variant.None? ==> s == InfoStyle
    ensures t.variant.Some? ==> s == VariantStyle(t.variant.value)
  {
    VariantStyle(t.variant.GetOr(Info))
  }

  /** `useToast`: the provider's value, or the error raised without one. */
  function UseToast<V>(context: Wrappers.Option<V>): (r: Wrappers.Result<V, string>)
    ensures r.Success? <==> context.Some?
    ensures r.Success? ==> r.value == context.value
    ensures r.Failure? ==> r.error == MissingProviderMessage
  {
    match context
    case None => Wrappers.Failure(MissingProviderMessage)
    case Some(v) => Wrappers.Success(v)
  }

  /** The `toasts` state of one `ToastProvider`. */
  class ToastProvider {
    var toasts: seq<ToastItem>

    constructor ()
      ensures toasts == []
    {
      toasts := [];
    }

    /** `removeToast(id)`, also what a fired auto-removal timer runs. */
    method RemoveToast(id: string)
      modifies this
      ensures toasts == WithoutToast(old(toasts), id)
    {
      toasts := WithoutToast(toasts, id);
    }

    /**
     * `addToast(toast)` with `id` the freshly drawn id: append the stored
     * toast at the end and return the auto-removal it schedules, if any.
     */
    method AddToast(toast: ToastInput, id: string) returns (timer: Wrappers.Option<Timer>)
      modifies this
      ensures toasts == old(toasts) + [Stored(toast, id)]
      ensures timer == TimerFor(toast, id)
    {
      toasts := toasts + [Stored(toast, id)];
      timer := TimerFor(toast, id);
    }
  }

  /** A toast added with the default duration is removed again when its timer fires. */
  method ScenarioDefaultToastExpires(provider: ToastProvider, id: string) returns (timer: Wrappers.Option<Timer>)
    requires !HasToast(provider.toasts, id)
    modifies provider
    ensures timer == Wrappers.Some(Timer(id, DefaultDuration))
    ensures provider.toasts == old(provider.toasts)
  {
    var toast := ToastInput("Saved", Wrappers.None, Wrappers.None, Wrappers.None);
    timer := provider.AddToast(toast, id);
    AddThenExpire(old(provider.toasts), toast, id);
    provider.RemoveToast(timer.value.id);
  }
}
