/** The toast provider's queue: `toast` appends an entry under a new id,
    `removeToast` drops the entries with an id, and `useToast` refuses to
    work outside a provider. */
module Toast {
  import opened Wrappers
  import opened Seqs

  datatype Variant = DefaultVariant | Destructive | SuccessVariant

  /** What a caller passes to `toast`. */
  datatype ToastProps = ToastProps(title: Option<string>, description: Option<string>, variant: Option<Variant>)

  /** A queued toast: the caller's props plus the generated id. */
  datatype Entry = Entry(props: ToastProps, id: string)

  predicate HasId(toasts: seq<Entry>, id: string) {
    exists i :: 0 <= i < |toasts| && toasts[i].id == id
  }

  /** `toast(props)`: `id` is the generated identifier. */
  function AddToast(toasts: seq<Entry>, props: ToastProps, id: string): (r: seq<Entry>)
    ensures |r| == |toasts| + 1
    ensures r[..|toasts|] == toasts
    ensures r[|toasts|].props == props && r[|toasts|].id == id
  {
    toasts + [Entry(props, id)]
  }

  function KeepOthers(id: string): Entry -> bool {
    (e: Entry) => e.id != id
  }

  /** `removeToast(id)`. */
  function RemoveToast(toasts: seq<Entry>, id: string): (r: seq<Entry>)
    ensures |r| <= |toasts|
    ensures !HasId(r, id)
    ensures forall i :: 0 <= i < |r| ==> r[i] in toasts
    ensures forall i :: 0 <= i < |toasts| && toasts[i].id != id ==> toasts[i] in r
  {
    Filter(toasts, KeepOthers(id))
  }

  /** Removal works piecewise, so the entries that stay keep their order. */
  lemma RemoveToastSplits(a: seq<Entry>, b: seq<Entry>, id: string)
    ensures RemoveToast(a + b, id) == RemoveToast(a, id) + RemoveToast(b, id)
  {
    FilterConcat(a, b, KeepOthers(id));
  }

  /** Removing an id nobody carries changes nothing. */
  lemma RemoveAbsent(toasts: seq<Entry>, id: string)
    requires !HasId(toasts, id)
    ensures RemoveToast(toasts, id) == toasts
  {
    FilterAll(toasts, KeepOthers(id));
  }

  /** Removing the same id twice is removing it once. */
  lemma RemoveToastIdempotent(toasts: seq<Entry>, id: string)
    ensures RemoveToast(RemoveToast(toasts, id), id) == RemoveToast(toasts, id)
  {
    FilterIdempotent(toasts, KeepOthers(id));
  }

  /** Closing a toast just shown under a fresh id restores the queue as it
      was before. */
  lemma RemoveUndoesAdd(toasts: seq<Entry>, props: ToastProps, id: string)
    requires !HasId(toasts, id)
    ensures RemoveToast(AddToast(toasts, props, id), id) == toasts
  {
    RemoveToastSplits(toasts, [Entry(props, id)], id);
    RemoveAbsent(toasts, id);
  }

  /** The value the provider puts in its context. */
  datatype ToastContext = ToastContext

  /** `useToast()`: the context when called inside a provider, otherwise the
      error it throws. */
  function UseToast(context: Option<ToastContext>): (r: Result<ToastContext, string>)
    ensures r.Success? <==> context.Some?
    ensures r.Failure? ==> r.error == "useToast must be used within a ToastProvider"
  {
    match context
    case None => Failure("useToast must be used within a ToastProvider")
    case Some(c) => Success(c)
  }
}
