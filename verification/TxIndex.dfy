/**
  The transaction index: for every main-chain transaction, where it lies on disk and
  which later transaction spent each of its outputs (CTxIndex), and how connecting
  and disconnecting transactions rewrites it.
*/
module TxIndexModel {
  import opened Primitives

  /** Position of a transaction in the block files; NullPos marks an unspent output. */
  datatype DiskPos = NullPos | At(file: nat, blockPos: nat, txPos: nat)

  datatype TxIndex = TxIndex(pos: DiskPos, vSpent: seq<DiskPos>)

  type Index = map<TxId, TxIndex>

  /** A transaction together with its place on disk. */
  datatype Placed = Placed(tx: Transaction, pos: DiskPos)

  function NewIndex(p: Placed): (r: TxIndex) {
    TxIndex(p.pos, seq(|p.tx.vout|, _ => NullPos))
  }

  predicate InRange(view: Index, out: OutPoint) {
    out.hash in view && out.n < |view[out.hash].vSpent|
  }

  function Spender(view: Index, out: OutPoint): (r: DiskPos)
    requires InRange(view, out)
  {
    view[out.hash].vSpent[out.n]
  }

  function SetSpender(view: Index, out: OutPoint, pos: DiskPos): (r: Index)
    requires InRange(view, out)
  {
    view[out.hash := view[out.hash].(vSpent := view[out.hash].vSpent[out.n := pos])]
  }

  /** Mark the inputs spent in order; None as soon as one is missing or already spent. */
  function SpendInputs(view: Index, vin: seq<OutPoint>, pos: DiskPos): (r: Option<Index>) {
    if vin == [] then Some(view)
    else
      var out := vin[|vin| - 1];
      match SpendInputs(view, vin[..|vin| - 1], pos)
      case None => None
      case Some(v) =>
        if InRange(v, out) && Spender(v, out) == NullPos then Some(SetSpender(v, out, pos)) else None
  }

  /** Clear the inputs' spent marks in order (DisconnectInputs). */
  function UnspendInputs(view: Index, vin: seq<OutPoint>): (r: Option<Index>) {
    if vin == [] then Some(view)
    else
      var out := vin[|vin| - 1];
      match UnspendInputs(view, vin[..|vin| - 1])
      case None => None
      case Some(v) => if InRange(v, out) then Some(SetSpender(v, out, NullPos)) else None
  }

  function ConnectTx(view: Index, p: Placed): (r: Option<Index>) {
    if p.tx.IsCoinBase() then Some(view[p.tx.id := NewIndex(p)])
    else
      match SpendInputs(view, p.tx.vin, p.pos)
      case None => None
      case Some(v) => Some(v[p.tx.id := NewIndex(p)])
  }

  function ConnectAll(view: Index, txs: seq<Placed>): (r: Option<Index>) {
    if txs == [] then Some(view)
    else
      match ConnectAll(view, txs[..|txs| - 1])
      case None => None
      case Some(v) => ConnectTx(v, txs[|txs| - 1])
  }

  function DisconnectTx(view: Index, tx: Transaction): (r: Option<Index>) {
    if tx.IsCoinBase() then Some(view - {tx.id})
    else
      match UnspendInputs(view, tx.vin)
      case None => None
      case Some(v) => Some(v - {tx.id})
  }

  /** Transactions are taken back last one first. */
  function DisconnectAll(view: Index, txs: seq<Placed>): (r: Option<Index>)
    decreases |txs|
  {
    if txs == [] then Some(view)
    else
      match DisconnectTx(view, txs[|txs| - 1].tx)
      case None => None
      case Some(v) => DisconnectAll(v, txs[..|txs| - 1])
  }

  function Ids(txs: seq<Placed>): (r: set<TxId>) {
    set i | 0 <= i < |txs| :: txs[i].tx.id
  }

  /** No transaction of the list is indexed yet, and none occurs twice. */
  predicate Fresh(view: Index, txs: seq<Placed>) {
    && (forall i :: 0 <= i < |txs| ==> txs[i].tx.id !in view)
    && (forall i, j :: 0 <= i < j < |txs| ==> txs[i].tx.id != txs[j].tx.id)
  }

  /** Same transactions, same positions, same numbers of outputs. */
  ghost predicate SameShape(a: Index, b: Index) {
    && a.Keys == b.Keys
    && forall id :: id in a ==> a[id].pos == b[id].pos && |a[id].vSpent| == |b[id].vSpent|
  }

  /** b is a with exactly the listed outputs marked. */
  ghost predicate Marked(a: Index, b: Index, vin: seq<OutPoint>, pos: DiskPos) {
    && SameShape(a, b)
    && forall id, n :: id in a && 0 <= n < |a[id].vSpent| ==>
         b[id].vSpent[n] == if OutPoint(id, n) in vin then pos else a[id].vSpent[n]
  }

  lemma MarkOne(a: Index, b: Index, vin: seq<OutPoint>, out: OutPoint, pos: DiskPos)
    requires Marked(a, b, vin, pos) && InRange(b, out)
    ensures Marked(a, SetSpender(b, out, pos), vin + [out], pos)
  {
    var c := SetSpender(b, out, pos);
    forall id, n | id in a && 0 <= n < |a[id].vSpent|
      ensures c[id].vSpent[n] == if OutPoint(id, n) in vin + [out] then pos else a[id].vSpent[n]
    {
      assert OutPoint(id, n) in vin + [out] <==> OutPoint(id, n) in vin || OutPoint(id, n) == out;
    }
  }

  /** Success means: every input existed, was unspent, and no input occurred twice. */
  lemma {:induction false} SpendInputsMarks(view: Index, vin: seq<OutPoint>, pos: DiskPos)
    requires SpendInputs(view, vin, pos).Some? && pos != NullPos
    ensures Marked(view, SpendInputs(view, vin, pos).value, vin, pos)
    ensures forall k :: 0 <= k < |vin| ==> InRange(view, vin[k]) && Spender(view, vin[k]) == NullPos
    ensures forall j, k :: 0 <= j < k < |vin| ==> vin[j] != vin[k]
  {
    if vin != [] {
      var rest := vin[..|vin| - 1];
      var out := vin[|vin| - 1];
      SpendInputsMarks(view, rest, pos);
      var v := SpendInputs(view, rest, pos).value;
      MarkOne(view, v, rest, out, pos);
      assert rest + [out] == vin;
      assert out !in rest;
    }
  }

  lemma {:induction false} UnspendInputsClears(view: Index, vin: seq<OutPoint>)
    requires forall k :: 0 <= k < |vin| ==> InRange(view, vin[k])
    ensures UnspendInputs(view, vin).Some? && Marked(view, UnspendInputs(view, vin).value, vin, NullPos)
  {
    if vin != [] {
      var rest := vin[..|vin| - 1];
      var out := vin[|vin| - 1];
      UnspendInputsClears(view, rest);
      var v := UnspendInputs(view, rest).value;
      MarkOne(view, v, rest, out, NullPos);
      assert rest + [out] == vin;
    }
  }

  /** Marking unspent outputs and then clearing the same outputs changes no entry. */
  lemma ClearedEntry(view: Index, v: Index, w: Index, vin: seq<OutPoint>, pos: DiskPos, id: TxId)
    requires Marked(view, v, vin, pos) && id in view && id in w
    requires forall k :: 0 <= k < |vin| ==> InRange(view, vin[k]) && Spender(view, vin[k]) == NullPos
    requires w[id].pos == v[id].pos && |w[id].vSpent| == |v[id].vSpent|
    requires forall n :: 0 <= n < |v[id].vSpent| ==>
      w[id].vSpent[n] == if OutPoint(id, n) in vin then NullPos else v[id].vSpent[n]
    ensures w[id] == view[id]
  {
    forall n | 0 <= n < |view[id].vSpent| ensures w[id].vSpent[n] == view[id].vSpent[n] {
      if OutPoint(id, n) in vin {
        var k :| 0 <= k < |vin| && vin[k] == OutPoint(id, n);
        assert Spender(view, vin[k]) == NullPos;
      }
    }
    assert w[id].vSpent == view[id].vSpent;
  }

  lemma ClearedView(view: Index, v: Index, w: Index, vin: seq<OutPoint>, pos: DiskPos, id: TxId, entry: TxIndex)
    requires id !in view && Marked(view, v, vin, pos)
    requires forall k :: 0 <= k < |vin| ==> InRange(view, vin[k]) && Spender(view, vin[k]) == NullPos
    requires Marked(v[id := entry], w, vin, NullPos)
    ensures w - {id} == view
  {
    forall k | k in view ensures k in w && w[k] == view[k] {
      assert v[id := entry][k] == v[k];
      ClearedEntry(view, v, w, vin, pos, k);
    }
  }

  /** Taking one freshly connected transaction back restores the index. */
  lemma DisconnectTxUndoes(view: Index, p: Placed)
    requires p.tx.id !in view && p.pos != NullPos && ConnectTx(view, p).Some?
    ensures DisconnectTx(ConnectTx(view, p).value, p.tx) == Some(view)
  {
    if !p.tx.IsCoinBase() {
      SpendInputsMarks(view, p.tx.vin, p.pos);
      var v := SpendInputs(view, p.tx.vin, p.pos).value;
      var v' := ConnectTx(view, p).value;
      hide SpendInputs, Marked, UnspendInputs;
      assert forall k :: 0 <= k < |p.tx.vin| ==> InRange(v', p.tx.vin[k]) by {
        MarkedInRange(view, v, p.tx.vin, p.pos, p.tx.id, NewIndex(p));
      }
      UnspendInputsClears(v', p.tx.vin);
      ClearedView(view, v, UnspendInputs(v', p.tx.vin).value, p.tx.vin, p.pos, p.tx.id, NewIndex(p));
    } else {
      assert view[p.tx.id := NewIndex(p)] - {p.tx.id} == view;
    }
  }

  lemma MarkedInRange(view: Index, v: Index, vin: seq<OutPoint>, pos: DiskPos, id: TxId, entry: TxIndex)
    requires id !in view && Marked(view, v, vin, pos)
    requires forall k :: 0 <= k < |vin| ==> InRange(view, vin[k])
    ensures forall k :: 0 <= k < |vin| ==> InRange(v[id := entry], vin[k])
  {
  }

  lemma FreshPrefix(view: Index, txs: seq<Placed>)
    requires Fresh(view, txs) && |txs| > 0
    ensures Fresh(view, txs[..|txs| - 1])
    ensures txs[|txs| - 1].tx.id !in view.Keys + Ids(txs[..|txs| - 1])
    ensures Ids(txs) == Ids(txs[..|txs| - 1]) + {txs[|txs| - 1].tx.id}
  {
    assert txs == txs[..|txs| - 1] + [txs[|txs| - 1]];
  }

  predicate Located(txs: seq<Placed>) {
    forall i :: 0 <= i < |txs| ==> txs[i].pos != NullPos
  }

  lemma {:induction false} ConnectAllKeys(view: Index, txs: seq<Placed>)
    requires ConnectAll(view, txs).Some? && Located(txs)
    ensures ConnectAll(view, txs).value.Keys == view.Keys + Ids(txs)
  {
    if txs != [] {
      var k := |txs| - 1;
      ConnectAllKeys(view, txs[..k]);
      var v := ConnectAll(view, txs[..k]).value;
      if !txs[k].tx.IsCoinBase() {
        SpendInputsMarks(v, txs[k].tx.vin, txs[k].pos);
      }
      assert Ids(txs) == Ids(txs[..k]) + {txs[k].tx.id};
    }
  }

  /** Disconnecting is the exact inverse of connecting, for any transactions with fresh ids. */
  lemma {:induction false} DisconnectUndoesConnect(view: Index, txs: seq<Placed>)
    requires Fresh(view, txs) && Located(txs) && ConnectAll(view, txs).Some?
    ensures DisconnectAll(ConnectAll(view, txs).value, txs) == Some(view)
  {
    if txs != [] {
      var k := |txs| - 1;
      FreshPrefix(view, txs);
      DisconnectUndoesConnect(view, txs[..k]);
      ConnectAllKeys(view, txs[..k]);
      DisconnectTxUndoes(ConnectAll(view, txs[..k]).value, txs[k]);
    }
  }

  lemma {:induction false} UnspendInputsKeys(view: Index, vin: seq<OutPoint>)
    ensures UnspendInputs(view, vin).Some? ==> UnspendInputs(view, vin).value.Keys == view.Keys
  {
    if vin != [] {
      UnspendInputsKeys(view, vin[..|vin| - 1]);
    }
  }

  /** Disconnecting leaves no transaction of the block in the index, whoever put it there. */
  lemma {:induction false} DisconnectAllKeys(view: Index, txs: seq<Placed>)
    ensures DisconnectAll(view, txs).Some? ==> DisconnectAll(view, txs).value.Keys == view.Keys - Ids(txs)
    decreases |txs|
  {
    if txs != [] {
      var k := |txs| - 1;
      assert Ids(txs) == Ids(txs[..k]) + {txs[k].tx.id};
      UnspendInputsKeys(view, txs[k].tx.vin);
      if DisconnectTx(view, txs[k].tx).Some? {
        DisconnectAllKeys(DisconnectTx(view, txs[k].tx).value, txs[..k]);
      }
    }
  }

  /** A connected block without repeated ids is taken back exactly if and only if none of its ids was indexed before. */
  lemma UndoneExactlyWhenFresh(view: Index, txs: seq<Placed>)
    requires Located(txs) && ConnectAll(view, txs).Some?
    requires forall i, j :: 0 <= i < j < |txs| ==> txs[i].tx.id != txs[j].tx.id
    ensures DisconnectAll(ConnectAll(view, txs).value, txs) == Some(view) <==> forall i :: 0 <= i < |txs| ==> txs[i].tx.id !in view
  {
    hide ConnectAll, DisconnectAll;
    if Fresh(view, txs) {
      DisconnectUndoesConnect(view, txs);
    } else {
      var i :| 0 <= i < |txs| && txs[i].tx.id in view;
      assert txs[i].tx.id in Ids(txs);
      DisconnectAllKeys(ConnectAll(view, txs).value, txs);
    }
  }

  /** An id that is already indexed: connecting overwrites its entry, disconnecting then drops it. */
  lemma OverwrittenEntry()
    ensures
      var id := Hash(1);
      var p := Placed(Transaction(id, 1, 0, [OutPoint(NULL_HASH, NULL_INDEX)], [TxOut(5, NO_ROUNDS, [])]), At(1, 2, 3));
      var view := map[id := TxIndex(At(0, 0, 0), [NullPos])];
      && ConnectAll(view, [p]).Some?
      && DisconnectAll(ConnectAll(view, [p]).value, [p]) == Some(map[])
  {
    var id := Hash(1);
    var p := Placed(Transaction(id, 1, 0, [OutPoint(NULL_HASH, NULL_INDEX)], [TxOut(5, NO_ROUNDS, [])]), At(1, 2, 3));
    var view := map[id := TxIndex(At(0, 0, 0), [NullPos])];
    assert [p][..0] == [];
    assert ConnectAll(view, [p]) == ConnectTx(view, p) == Some(view[id := NewIndex(p)]);
    assert view[id := NewIndex(p)] - {id} == map[];
  }

  lemma {:induction false} ConnectAllSplit(view: Index, a: seq<Placed>, b: seq<Placed>)
    ensures ConnectAll(view, a + b) ==
      if ConnectAll(view, a).None? then None else ConnectAll(ConnectAll(view, a).value, b)
  {
    if b == [] {
      assert a + b == a;
    } else {
      var k := |b| - 1;
      assert (a + b)[..|a + b| - 1] == a + b[..k];
      ConnectAllSplit(view, a, b[..k]);
    }
  }
}
