/** Callback traces. The parser may deliver one piece of data in several callbacks, so traces are
    compared after adjacent data callbacks of one kind have been merged. */
module Trace {
  import opened Http

  type Trace = seq<Event>

  /** Appends one callback to a merged trace. */
  function Add(t: Trace, e: Event): Trace {
    if e.Data? && t != [] && t[|t| - 1].Data? && t[|t| - 1].kind == e.kind then
      t[..|t| - 1] + [Data(e.kind, t[|t| - 1].bytes + e.bytes)]
    else
      t + [e]
  }

  /** The merged trace of a list of callbacks. */
  function Merged(calls: seq<Event>): Trace {
    if calls == [] then [] else Add(Merged(calls[..|calls| - 1]), calls[|calls| - 1])
  }

  lemma MergedSnoc(calls: seq<Event>, e: Event)
    ensures Merged(calls + [e]) == Add(Merged(calls), e)
  {
    assert (calls + [e])[..|calls|] == calls;
  }

  /** Two pieces of one datum are one piece. */
  lemma AddJoins(t: Trace, k: Kind, a: string, b: string)
    ensures Add(Add(t, Data(k, a)), Data(k, b)) == Add(t, Data(k, a + b))
  {
    var u := Add(t, Data(k, a));
    assert u[..|u| - 1] == if t != [] && t[|t| - 1].Data? && t[|t| - 1].kind == k then t[..|t| - 1] else t;
    if t != [] && t[|t| - 1].Data? && t[|t| - 1].kind == k {
      assert t[|t| - 1].bytes + a + b == t[|t| - 1].bytes + (a + b);
    }
  }

  /** All bytes delivered for one kind of data, in order. */
  function Delivered(t: Trace, k: Kind): string {
    if t == [] then ""
    else Delivered(t[..|t| - 1], k) + (if t[|t| - 1].Data? && t[|t| - 1].kind == k then t[|t| - 1].bytes else "")
  }

  lemma DeliveredAdd(t: Trace, e: Event, k: Kind)
    ensures Delivered(Add(t, e), k) == Delivered(t, k) + (if e.Data? && e.kind == k then e.bytes else "")
  {
    var u := Add(t, e);
    if e.Data? && t != [] && t[|t| - 1].Data? && t[|t| - 1].kind == e.kind {
      assert u[..|u| - 1] == t[..|t| - 1];
    } else {
      assert u[..|u| - 1] == t;
    }
  }

  /** How often on_chunk_header, on_chunk_complete and on_message_complete were called. */
  datatype Tally = Tally(headers: nat, completes: nat, messages: nat)

  function TallyOf(t: Trace): Tally {
    if t == [] then Tally(0, 0, 0) else TallyWith(TallyOf(t[..|t| - 1]), t[|t| - 1])
  }

  function TallyWith(n: Tally, e: Event): Tally {
    match e
    case ChunkHeader(_) => n.(headers := n.headers + 1)
    case ChunkComplete => n.(completes := n.completes + 1)
    case MessageComplete => n.(messages := n.messages + 1)
    case _ => n
  }

  lemma TallyAdd(t: Trace, e: Event)
    ensures TallyOf(Add(t, e)) == TallyWith(TallyOf(t), e)
  {
    var u := Add(t, e);
    if e.Data? && t != [] && t[|t| - 1].Data? && t[|t| - 1].kind == e.kind {
      assert u[..|u| - 1] == t[..|t| - 1];
    } else {
      assert u[..|u| - 1] == t;
    }
  }
}
