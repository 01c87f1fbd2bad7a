/** The canonical batch bytes of version 4, which commit to fewer fields of a block, and their decoder. */
module BatchDataV4 {
  import opened Bytes
  import opened BlockData
  import opened Rlp
  import opened BatchData

  /** What the encoding commits to of one block. */
  datatype Committed = Committed(number: U64, timestamp: U64, expectedRoot: B256, rawTxs: seq<Bytes>)

  function CommittedOf(b: ChainBlock): Committed
  {
    Committed(b.number, b.env.timestamp, b.expectedRoot, b.rawTxs)
  }

  function CommittedAll(blocks: seq<ChainBlock>): (r: seq<Committed>)
    ensures |r| == |blocks|
  {
    seq(|blocks|, i requires 0 <= i < |blocks| => CommittedOf(blocks[i]))
  }

  function ShortItem(c: Committed, parent: B256): Item
  {
    Lst([Num(c.number), Num(c.timestamp), Str(parent), Str(c.expectedRoot), Lst(TxItems(c.rawTxs))])
  }

  function ShortItems(blocks: seq<ChainBlock>, preRoot: B256): (r: seq<Item>)
    ensures |r| == |blocks|
  {
    seq(|blocks|, i requires 0 <= i < |blocks| => ShortItem(CommittedOf(blocks[i]), Parent(blocks, preRoot, i)))
  }

  const SHORT_VERSION: nat := 4

  function ShortBatch(blocks: seq<ChainBlock>, preRoot: B256): Item
  {
    Lst([Num(SHORT_VERSION), Lst(ShortItems(blocks, preRoot))])
  }

  method CanonicalBatchBytes(blocks: seq<ChainBlock>, preRoot: B256) returns (r: Bytes)
    ensures r == Encode(ShortBatch(blocks, preRoot))
  {
    var parent := preRoot;
    var payload: Bytes := [];
    var i := 0;
    ghost var items := ShortItems(blocks, preRoot);
    while i < |blocks|
      invariant 0 <= i <= |blocks| && parent == Parent(blocks, preRoot, i)
      invariant payload == EncodeAll(items[..i])
    {
      var b := blocks[i];
      EncodeStep(items, i);
      payload := payload + Encode(ShortItem(CommittedOf(b), parent));
      parent := b.expectedRoot;
      i := i + 1;
    }
    assert items[..i] == items;
    EncodeVersioned(Num(SHORT_VERSION), items);
    r := EncodeList(Encode(Num(SHORT_VERSION)) + EncodeList(payload));
  }

  // ----- The decoder -----

  function ReadShort(x: Item): Option<(Committed, B256)>
  {
    if !(x.Lst? && |x.items| == 5 && x.items[4].Lst?) then None
    else
      var i := x.items;
      match (ReadNum(i[0], TWO_64), ReadNum(i[1], TWO_64), ReadWord(i[2]), ReadWord(i[3]), ReadAll(ReadTx, i[4].items))
      case (Some(number), Some(timestamp), Some(parent), Some(root), Some(txs)) =>
        Some((Committed(number, timestamp, root, txs), parent))
      case _ => None
  }

  /** The committed blocks and, for a non-empty list, the opening root. */
  function ReadShortBatch(x: Item): Option<(seq<Committed>, Option<B256>)>
  {
    if !(x.Lst? && |x.items| == 2 && x.items[0] == Num(SHORT_VERSION) && x.items[1].Lst?) then None
    else
      match ReadAll(ReadShort, x.items[1].items)
      case None => None
      case Some(read) =>
        Some((seq(|read|, i requires 0 <= i < |read| => read[i].0), if read == [] then None else Some(read[0].1)))
  }

  function DecodeShort(b: Bytes): Option<(seq<Committed>, Option<B256>)>
  {
    match Decode(b)
    case Some((x, rest)) => if rest == [] then ReadShortBatch(x) else None
    case None => None
  }

  lemma ShortReads(c: Committed, parent: B256)
    ensures ReadShort(ShortItem(c, parent)) == Some((c, parent))
  {
    NumReads(c.number, TWO_64);
    NumReads(c.timestamp, TWO_64);
    ReadAllWritten(ReadTx, TxItems(c.rawTxs), c.rawTxs);
  }

  lemma ShortBatchReads(blocks: seq<ChainBlock>, preRoot: B256)
    ensures ReadShortBatch(ShortBatch(blocks, preRoot))
            == Some((CommittedAll(blocks), if blocks == [] then None else Some(preRoot)))
  {
    var read := seq(|blocks|, i requires 0 <= i < |blocks| => (CommittedOf(blocks[i]), Parent(blocks, preRoot, i)));
    forall i | 0 <= i < |blocks|
      ensures ReadShort(ShortItems(blocks, preRoot)[i]) == Some(read[i])
    {
      ShortReads(CommittedOf(blocks[i]), Parent(blocks, preRoot, i));
    }
    ReadAllWritten(ReadShort, ShortItems(blocks, preRoot), read);
    assert seq(|read|, i requires 0 <= i < |read| => read[i].0) == CommittedAll(blocks);
  }

  lemma ShortRoundTrip(blocks: seq<ChainBlock>, preRoot: B256)
    requires |Encode(ShortBatch(blocks, preRoot))| < TWO_64
    ensures DecodeShort(Encode(ShortBatch(blocks, preRoot)))
            == Some((CommittedAll(blocks), if blocks == [] then None else Some(preRoot)))
  {
    var x := ShortBatch(blocks, preRoot);
    RoundTrip(x, []);
    assert Encode(x) + [] == Encode(x);
    ShortBatchReads(blocks, preRoot);
  }

  /** Equal bytes come from batches with equal heights, timestamps, roots and transactions, and conversely; the rest of
      the environment is not committed to. */
  lemma ShortDataBinding(a: seq<ChainBlock>, r: B256, b: seq<ChainBlock>, q: B256)
    requires |Encode(ShortBatch(a, r))| < TWO_64
    ensures Encode(ShortBatch(a, r)) == Encode(ShortBatch(b, q))
            <==> CommittedAll(a) == CommittedAll(b) && (a != [] ==> r == q)
  {
    if Encode(ShortBatch(a, r)) == Encode(ShortBatch(b, q)) {
      ShortRoundTrip(a, r);
      ShortRoundTrip(b, q);
    }
    if CommittedAll(a) == CommittedAll(b) && (a != [] ==> r == q) {
      SameCommittedSameItems(a, r, b, q);
    }
  }

  lemma SameCommittedSameItems(a: seq<ChainBlock>, r: B256, b: seq<ChainBlock>, q: B256)
    requires CommittedAll(a) == CommittedAll(b) && (a != [] ==> r == q)
    ensures ShortItems(a, r) == ShortItems(b, q)
  {
    assert |a| == |CommittedAll(a)| == |b|;
    forall i | 0 <= i < |a|
      ensures CommittedOf(a[i]) == CommittedOf(b[i])
    {
      assert CommittedAll(a)[i] == CommittedOf(a[i]) && CommittedAll(b)[i] == CommittedOf(b[i]);
    }
    assert forall i :: 0 <= i < |a| ==> Parent(a, r, i) == Parent(b, q, i);
  }
}
