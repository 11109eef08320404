/** Identities of handled requests, and the bounded window the workload remembers them in. */
module Journal {

  datatype OpType = Upgrade | Rollback | Retry

  const MAX_HANDLED_OPS: nat := 8

  function TypeName(t: OpType): string {
    match t
    case Upgrade => "Upgrade"
    case Rollback => "Rollback"
    case Retry => "Retry"
  }

  function HandledId(t: OpType, nonce: string): string { TypeName(t) + "|" + nonce }

  lemma {:induction false} HandledIdText(nonce: string)
    ensures HandledId(Upgrade, nonce) == "Upgrade|" + nonce
    ensures HandledId(Rollback, nonce) == "Rollback|" + nonce && HandledId(Retry, nonce) == "Retry|" + nonce
  {
  }

  lemma {:induction false} HandledIdInjective(t: OpType, n: string, u: OpType, m: string)
    ensures HandledId(t, n) == HandledId(u, m) <==> t == u && n == m
  {
    if HandledId(t, n) == HandledId(u, m) {
      assert HandledId(t, n)[2] == TypeName(t)[2] && HandledId(u, m)[2] == TypeName(u)[2];
      assert n == HandledId(t, n)[|TypeName(t)| + 1..];
      assert m == HandledId(u, m)[|TypeName(u)| + 1..];
    }
  }

  predicate IsHandled(handled: seq<string>, id: string) { id in handled }

  function AddHandled(handled: seq<string>, id: string): seq<string> {
    if IsHandled(handled, id) then handled
    else
      var out := handled + [id];
      if |out| > MAX_HANDLED_OPS then out[|out| - MAX_HANDLED_OPS..] else out
  }

  /** The last eight entries of a history. */
  function Window(history: seq<string>): seq<string> {
    if |history| > MAX_HANDLED_OPS then history[|history| - MAX_HANDLED_OPS..] else history
  }

  /** Equal entries are more than a window apart. */
  predicate Spaced(history: seq<string>) {
    forall i, j :: 0 <= i < j < |history| && history[i] == history[j] ==> j - i > MAX_HANDLED_OPS
  }

  lemma {:induction false} WindowDistinct(history: seq<string>)
    requires Spaced(history)
    ensures forall i, j :: 0 <= i < j < |Window(history)| ==> Window(history)[i] != Window(history)[j]
  {
  }

  /** Remembering one more id slides the window, and keeps repeats at a distance. */
  lemma {:induction false} WindowSlides(history: seq<string>, id: string)
    requires Spaced(history)
    ensures !IsHandled(Window(history), id) ==>
              AddHandled(Window(history), id) == Window(history + [id]) && Spaced(history + [id])
    ensures forall x :: IsHandled(AddHandled(Window(history), id), x) ==> x == id || IsHandled(Window(history), x)
  {
  }
}
