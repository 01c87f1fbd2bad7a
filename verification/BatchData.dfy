/** The canonical batch bytes of version 5, and their decoder. */
module BatchData {
  import opened Bytes
  import opened BlockData
  import opened Rlp

  // ----- Fields -----

  function Num(n: nat): Item
  {
    Str(MinBE(n))
  }

  function AddressItem(a: Address): Item
  {
    Str(ToBE(a, 20))
  }

  function HistoryItem(entry: (U64, B256)): Item
  {
    Lst([Num(entry.0), Str(entry.1)])
  }

  function EnvItem(e: Env): Item
  {
    Lst([Num(e.number), Num(e.timestamp), Num(e.gasLimit), AddressItem(e.coinbase), Num(e.baseFee), Str(e.prevRandao),
         Num(e.difficulty), Num(e.excessBlobGas), Num(e.chainId)])
  }

  function HistoryItems(history: seq<(U64, B256)>): (r: seq<Item>)
    ensures |r| == |history|
  {
    seq(|history|, i requires 0 <= i < |history| => HistoryItem(history[i]))
  }

  function TxItems(txs: seq<Bytes>): (r: seq<Item>)
    ensures |r| == |txs|
  {
    seq(|txs|, i requires 0 <= i < |txs| => Str(txs[i]))
  }

  function BlockItem(b: ChainBlock, parent: B256): Item
  {
    Lst([Num(b.number), EnvItem(b.env), Str(parent), Str(b.expectedRoot), Lst(HistoryItems(b.history)),
         Lst(TxItems(b.rawTxs))])
  }

  /** The root a block builds on. */
  function Parent(blocks: seq<ChainBlock>, preRoot: B256, i: nat): B256
    requires i <= |blocks|
  {
    if i == 0 then preRoot else blocks[i - 1].expectedRoot
  }

  function BlockItems(blocks: seq<ChainBlock>, preRoot: B256): (r: seq<Item>)
    ensures |r| == |blocks|
  {
    seq(|blocks|, i requires 0 <= i < |blocks| => BlockItem(blocks[i], Parent(blocks, preRoot, i)))
  }

  const VERSION: nat := 5

  function BatchItem(blocks: seq<ChainBlock>, preRoot: B256): Item
  {
    Lst([Num(VERSION), Lst(BlockItems(blocks, preRoot))])
  }

  // ----- The encoder -----

  lemma EncodeAllOne(x: Item)
    ensures EncodeAll([x]) == Encode(x)
  {
    assert [x][1..] == [];
    assert EncodeAll([x]) == Encode(x) + EncodeAll([]);
  }

  lemma {:induction false} EncodeAllAppend(xs: seq<Item>, ys: seq<Item>)
    ensures EncodeAll(xs + ys) == EncodeAll(xs) + EncodeAll(ys)
    decreases |xs|
  {
    if xs == [] {
      assert xs + ys == ys;
    } else {
      assert (xs + ys)[1..] == xs[1..] + ys;
      EncodeAllAppend(xs[1..], ys);
    }
  }

  lemma EncodeStep(items: seq<Item>, i: nat)
    requires i < |items|
    ensures EncodeAll(items[..i + 1]) == EncodeAll(items[..i]) + Encode(items[i])
  {
    assert items[..i + 1] == items[..i] + [items[i]];
    EncodeAllAppend(items[..i], [items[i]]);
    EncodeAllOne(items[i]);
  }

  /** A version and a list, wrapped. */
  lemma EncodeVersioned(version: Item, items: seq<Item>)
    ensures Encode(Lst([version, Lst(items)])) == EncodeList(Encode(version) + EncodeList(EncodeAll(items)))
  {
    assert [version, Lst(items)] == [version] + [Lst(items)];
    EncodeAllAppend([version], [Lst(items)]);
    EncodeAllOne(version);
    EncodeAllOne(Lst(items));
  }

  /** The encoder walks the blocks with the parent root in a variable and wraps the concatenated block encodings. */
  method CanonicalBatchData(blocks: seq<ChainBlock>, preRoot: B256) returns (r: Bytes)
    ensures r == Encode(BatchItem(blocks, preRoot))
  {
    var parent := preRoot;
    var payload: Bytes := [];
    var i := 0;
    ghost var items := BlockItems(blocks, preRoot);
    while i < |blocks|
      invariant 0 <= i <= |blocks| && parent == Parent(blocks, preRoot, i)
      invariant payload == EncodeAll(items[..i])
    {
      var b := blocks[i];
      EncodeStep(items, i);
      payload := payload + Encode(BlockItem(b, parent));
      parent := b.expectedRoot;
      i := i + 1;
    }
    assert items[..i] == items;
    EncodeVersioned(Num(VERSION), items);
    r := EncodeList(Encode(Num(VERSION)) + EncodeList(payload));
  }

  // ----- The decoder -----

  function ReadNum(x: Item, bound: nat): Option<nat>
  {
    if x.Str? && FromBE(x.bytes) < bound then Some(FromBE(x.bytes)) else None
  }

  function ReadWord(x: Item): Option<B256>
  {
    if x.Str? && |x.bytes| == 32 then Some(x.bytes) else None
  }

  function ReadAddress(x: Item): Option<Address>
  {
    if x.Str? && |x.bytes| == 20 && FromBE(x.bytes) < TWO_160 then Some(FromBE(x.bytes)) else None
  }

  function ReadHistoryEntry(x: Item): Option<(U64, B256)>
  {
    if x.Lst? && |x.items| == 2 && ReadNum(x.items[0], TWO_64).Some? && ReadWord(x.items[1]).Some?
    then Some((ReadNum(x.items[0], TWO_64).value, ReadWord(x.items[1]).value))
    else None
  }

  function ReadTx(x: Item): Option<Bytes>
  {
    if x.Str? then Some(x.bytes) else None
  }

  function ReadAll<T>(f: Item -> Option<T>, xs: seq<Item>): Option<seq<T>>
  {
    if xs == [] then Some([])
    else
      match (f(xs[0]), ReadAll(f, xs[1..]))
      case (Some(t), Some(ts)) => Some([t] + ts)
      case _ => None
  }

  function ReadEnv(x: Item): Option<Env>
  {
    if !(x.Lst? && |x.items| == 9) then None
    else
      var i := x.items;
      match (ReadNum(i[0], TWO_64), ReadNum(i[1], TWO_64), ReadNum(i[2], TWO_64), ReadAddress(i[3]),
             ReadNum(i[4], TWO_256), ReadWord(i[5]))
      case (Some(number), Some(timestamp), Some(gasLimit), Some(coinbase), Some(baseFee), Some(prevRandao)) =>
        (match (ReadNum(i[6], TWO_256), ReadNum(i[7], TWO_64), ReadNum(i[8], TWO_64))
         case (Some(difficulty), Some(excess), Some(chainId)) =>
           Some(Env(number, timestamp, gasLimit, coinbase, baseFee, prevRandao, difficulty, excess, chainId))
         case _ => None)
      case _ => None
  }

  /** A block together with the root it builds on. */
  function ReadBlock(x: Item): Option<(ChainBlock, B256)>
  {
    if !(x.Lst? && |x.items| == 6 && x.items[4].Lst? && x.items[5].Lst?) then None
    else
      var i := x.items;
      match (ReadNum(i[0], TWO_64), ReadEnv(i[1]), ReadWord(i[2]), ReadWord(i[3]),
             ReadAll(ReadHistoryEntry, i[4].items), ReadAll(ReadTx, i[5].items))
      case (Some(number), Some(env), Some(parent), Some(root), Some(history), Some(txs)) =>
        Some((ChainBlock(number, env, txs, root, history), parent))
      case _ => None
  }

  /** The blocks and, for a non-empty list, the opening root. */
  function ReadBatch(x: Item): Option<(seq<ChainBlock>, Option<B256>)>
  {
    if !(x.Lst? && |x.items| == 2 && x.items[0] == Num(VERSION) && x.items[1].Lst?) then None
    else
      match ReadAll(ReadBlock, x.items[1].items)
      case None => None
      case Some(read) =>
        Some((seq(|read|, i requires 0 <= i < |read| => read[i].0), if read == [] then None else Some(read[0].1)))
  }

  function DecodeBatch(b: Bytes): Option<(seq<ChainBlock>, Option<B256>)>
  {
    match Decode(b)
    case Some((x, rest)) => if rest == [] then ReadBatch(x) else None
    case None => None
  }

  // ----- Round trip -----

  lemma NumReads(n: nat, bound: nat)
    requires n < bound
    ensures ReadNum(Num(n), bound) == Some(n)
  {
    MinBERead(n);
  }

  lemma AddressReads(a: Address)
    ensures ReadAddress(AddressItem(a)) == Some(a)
  {
    Widths();
    DecodeEncode(a, 20);
  }

  lemma EnvReads(e: Env)
    ensures ReadEnv(EnvItem(e)) == Some(e)
  {
    NumReads(e.number, TWO_64);
    NumReads(e.timestamp, TWO_64);
    NumReads(e.gasLimit, TWO_64);
    AddressReads(e.coinbase);
    NumReads(e.baseFee, TWO_256);
    NumReads(e.difficulty, TWO_256);
    NumReads(e.excessBlobGas, TWO_64);
    NumReads(e.chainId, TWO_64);
  }

  lemma {:induction false} ReadAllWritten<T>(f: Item -> Option<T>, xs: seq<Item>, ts: seq<T>)
    requires |xs| == |ts| && forall i :: 0 <= i < |xs| ==> f(xs[i]) == Some(ts[i])
    ensures ReadAll(f, xs) == Some(ts)
  {
    if xs != [] {
      ReadAllWritten(f, xs[1..], ts[1..]);
      assert [ts[0]] + ts[1..] == ts;
    }
  }

  lemma HistoryReads(history: seq<(U64, B256)>)
    ensures ReadAll(ReadHistoryEntry, HistoryItems(history)) == Some(history)
  {
    forall i | 0 <= i < |history|
      ensures ReadHistoryEntry(HistoryItems(history)[i]) == Some(history[i])
    {
      NumReads(history[i].0, TWO_64);
    }
    ReadAllWritten(ReadHistoryEntry, HistoryItems(history), history);
  }

  lemma BlockReads(b: ChainBlock, parent: B256)
    ensures ReadBlock(BlockItem(b, parent)) == Some((b, parent))
  {
    NumReads(b.number, TWO_64);
    EnvReads(b.env);
    HistoryReads(b.history);
    ReadAllWritten(ReadTx, TxItems(b.rawTxs), b.rawTxs);
  }

  lemma BatchReads(blocks: seq<ChainBlock>, preRoot: B256)
    ensures ReadBatch(BatchItem(blocks, preRoot)) == Some((blocks, if blocks == [] then None else Some(preRoot)))
  {
    var read := seq(|blocks|, i requires 0 <= i < |blocks| => (blocks[i], Parent(blocks, preRoot, i)));
    forall i | 0 <= i < |blocks|
      ensures ReadBlock(BlockItems(blocks, preRoot)[i]) == Some(read[i])
    {
      BlockReads(blocks[i], Parent(blocks, preRoot, i));
    }
    ReadAllWritten(ReadBlock, BlockItems(blocks, preRoot), read);
    assert seq(|read|, i requires 0 <= i < |read| => read[i].0) == blocks;
  }

  /** The decoder recovers every block field, history entry, transaction and, for a non-empty batch, the opening
      root. */
  lemma BatchRoundTrip(blocks: seq<ChainBlock>, preRoot: B256)
    requires |Encode(BatchItem(blocks, preRoot))| < TWO_64
    ensures DecodeBatch(Encode(BatchItem(blocks, preRoot)))
            == Some((blocks, if blocks == [] then None else Some(preRoot)))
  {
    var x := BatchItem(blocks, preRoot);
    RoundTrip(x, []);
    assert Encode(x) + [] == Encode(x);
    BatchReads(blocks, preRoot);
  }

  /** Equal canonical bytes come from equal batches; an empty batch does not name its opening root. */
  lemma BatchDataInjective(a: seq<ChainBlock>, r: B256, b: seq<ChainBlock>, q: B256)
    requires |Encode(BatchItem(a, r))| < TWO_64
    ensures Encode(BatchItem(a, r)) == Encode(BatchItem(b, q)) <==> a == b && (a != [] ==> r == q)
  {
    if Encode(BatchItem(a, r)) == Encode(BatchItem(b, q)) {
      BatchRoundTrip(a, r);
      BatchRoundTrip(b, q);
    }
    if a == [] && b == [] {
      assert BlockItems(a, r) == BlockItems(b, q);
    }
  }
}
