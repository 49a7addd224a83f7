/**
 * The in-memory invoice store (store.py): one entry per moderated message,
 * holding a status and a reason.
 */
module Store {
  import opened Wrappers

  /** `{"status": status, "reason": reason}` */
  datatype Entry = Entry(status: string, reason: string)

  /** The default status of `add` and `store_invoice`. */
  const Pending := "pending"

  /** The invoices after `add(id, status, reason)`: the entry for `id` is replaced, every other entry kept. */
  function Added(m: map<int, Entry>, id: int, status: string, reason: string): (r: map<int, Entry>)
    ensures r.Keys == m.Keys + {id} && r[id] == Entry(status, reason)
    ensures forall j :: j in m && j != id ==> r[j] == m[j]
  {
    m[id := Entry(status, reason)]
  }

  /** The invoices after `update(id, status, reason)`: only a known id changes, the rest stay as they were. */
  function Updated(m: map<int, Entry>, id: int, status: string, reason: string): (r: map<int, Entry>)
    ensures r.Keys == m.Keys
    ensures id in m ==> r[id] == Entry(status, reason)
    ensures forall j :: j in m && j != id ==> r[j] == m[j]
  {
    if id in m then m[id := Entry(status, reason)] else m
  }

  /** One call that writes the store. */
  datatype Op =
    | AddOp(id: int, status: string, reason: string)
    | UpdateOp(id: int, status: string, reason: string)

  function Apply(m: map<int, Entry>, op: Op): map<int, Entry> {
    match op
    case AddOp(id, status, reason) => Added(m, id, status, reason)
    case UpdateOp(id, status, reason) => Updated(m, id, status, reason)
  }

  /** The invoices after the calls `ops`, in order. */
  function Run(m: map<int, Entry>, ops: seq<Op>): map<int, Entry> {
    if ops == [] then m else Apply(Run(m, ops[..|ops| - 1]), ops[|ops| - 1])
  }

  /** No sequence of calls removes an entry. */
  lemma {:induction false} RunKeepsIds(m: map<int, Entry>, ops: seq<Op>)
    ensures m.Keys <= Run(m, ops).Keys
  {
    if ops != [] {
      RunKeepsIds(m, ops[..|ops| - 1]);
    }
  }

  /** Calls about other ids never touch the entry of `j`, nor create one. */
  lemma {:induction false} RunOthersUntouched(m: map<int, Entry>, ops: seq<Op>, j: int)
    requires forall i :: 0 <= i < |ops| ==> ops[i].id != j
    ensures j in Run(m, ops) <==> j in m
    ensures j in m ==> Run(m, ops)[j] == m[j]
  {
    if ops != [] {
      var n := |ops| - 1;
      assert forall i :: 0 <= i < n ==> ops[..n][i] == ops[i];
      RunOthersUntouched(m, ops[..n], j);
    }
  }

  /** Only `add` creates entries: updates alone leave the set of ids as it was. */
  lemma {:induction false} UpdatesKeepIds(m: map<int, Entry>, ops: seq<Op>)
    requires forall i :: 0 <= i < |ops| ==> ops[i].UpdateOp?
    ensures Run(m, ops).Keys == m.Keys
  {
    if ops != [] {
      var n := |ops| - 1;
      assert forall i :: 0 <= i < n ==> ops[..n][i] == ops[i];
      UpdatesKeepIds(m, ops[..n]);
    }
  }

  /** `InvoiceStore` */
  class InvoiceStore {
    var invoices: map<int, Entry>

    constructor ()
      ensures invoices == map[]
    {
      invoices := map[];
    }

    /** `add(message_id, status="pending", reason="")` */
    method Add(id: int, status: string := Pending, reason: string := "")
      modifies this
      ensures invoices == Added(old(invoices), id, status, reason)
    {
      invoices := invoices[id := Entry(status, reason)];
    }

    /** `update(message_id, status, reason="")` */
    method Update(id: int, status: string, reason: string := "")
      modifies this
      ensures invoices == Updated(old(invoices), id, status, reason)
    {
      if id in invoices {
        invoices := invoices[id := Entry(status, reason)];
      }
    }

    /** `get(message_id)` */
    function Get(id: int): (r: Option<Entry>)
      reads this
      ensures r.Some? <==> id in invoices
      ensures r.Some? ==> r.value == invoices[id]
    {
      if id in invoices then Some(invoices[id]) else None
    }
  }

  /** `store_invoice(message_id, status="pending")`: an `add` with an empty reason. */
  method StoreInvoice(store: InvoiceStore, id: int, status: string := Pending)
    modifies store
    ensures store.invoices == Added(old(store.invoices), id, status, "")
  {
    store.Add(id, status);
  }
}
