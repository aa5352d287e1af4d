/** Small helpers shared by every module of the model. */
module Common {

  /** A field or argument the source may leave `null` or `undefined` (`None`). */
  datatype Option<T> = None | Some(value: T)

  /** The stored value if there is one, else `fallback`: a default parameter of the source. */
  function ValueOr<T>(o: Option<T>, fallback: T): T {
    if o.Some? then o.value else fallback
  }

  /** A possibly absent string in a boolean position: `null`, `undefined` and `''` are falsy. */
  predicate Truthy(s: Option<string>) {
    s.Some? && s.value != ""
  }

  /** The value of one field after a sequence of actions, when `write(a)` says what action `a`
      stores in that field (`None`: `a` leaves the field alone).  The last writer wins. */
  function LastWrite<A, T>(init: T, acts: seq<A>, write: A -> Option<T>): (r: T)
    ensures (forall i | 0 <= i < |acts| :: write(acts[i]).None?) ==> r == init
    ensures r == init || exists i | 0 <= i < |acts| :: write(acts[i]) == Some(r)
    decreases |acts|
  {
    if |acts| == 0 then init
    else
      var prefix := acts[..|acts| - 1];
      match write(acts[|acts| - 1])
      case Some(v) => v
      case None =>
        var r := LastWrite(init, prefix, write);
        assert forall i | 0 <= i < |prefix| :: prefix[i] == acts[i];
        r
  }

  /** The meaning of `LastWrite`: when action `k` writes and no later action does, the field
      holds what action `k` wrote, whatever came before it. */
  lemma {:induction false} LastWriteAt<A, T>(init: T, acts: seq<A>, write: A -> Option<T>, k: nat)
    requires k < |acts| && write(acts[k]).Some?
    requires forall j | k < j < |acts| :: write(acts[j]).None?
    ensures LastWrite(init, acts, write) == write(acts[k]).value
    decreases |acts|
  {
    if k < |acts| - 1 {
      var prefix := acts[..|acts| - 1];
      assert forall j | 0 <= j < |prefix| :: prefix[j] == acts[j];
      LastWriteAt(init, prefix, write, k);
    }
  }
}
