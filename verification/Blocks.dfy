/** Blocks and the block tree (CBlock and CBlockIndex in src/main.h). */
module Blocks {
  import opened Wrappers
  import opened Transactions
  import opened Ledger

  datatype Block = Block(hash: Hash, hashPrev: Hash, time: int, vtx: seq<Tx>) {
    predicate IsProofOfStake() {
      |vtx| > 1 && vtx[1].IsCoinStake()
    }
  }

  /**
   What the chain code asks of code that is not modelled.  The block files only grow, so
   one function from positions to transactions stands for them.
   */
  datatype Oracle = Oracle(
    disk: DiskTxPos -> Option<Tx>,
    txSize: Tx -> nat,
    blockOk: Block -> bool,
    verifySignature: (Tx, Tx, nat) -> bool,
    legacySigOps: Tx -> nat,
    p2shSigOps: (Tx, map<Hash, (TxIndex, Tx)>) -> nat,
    coinAge: (Tx, IndexMap) -> Option<nat>,
    totalBlocksEstimate: int)

  /** What CheckBlock asks for.  Sizes, proof of work, timestamps, signature-operation counts and
      the Merkle root are `blockOk`; what the index depends on is spelled out. */
  ghost predicate WellFormedBlock(o: Oracle, b: Block) {
    && b.vtx != []
    && b.vtx[0].IsCoinBase()
    && (forall i :: 1 <= i < |b.vtx| ==> !b.vtx[i].IsCoinBase())
    && (b.IsProofOfStake() ==>
          && |b.vtx[0].vout| == 1 && b.vtx[0].vout[0].IsEmpty()
          && forall i :: 2 <= i < |b.vtx| ==> !b.vtx[i].IsCoinStake())
    && (forall i :: 0 <= i < |b.vtx| ==> WellFormedTx(b.vtx[i]))
    && (forall i, j :: 0 <= i < j < |b.vtx| ==> b.vtx[i].hash != b.vtx[j].hash)
    && o.blockOk(b)
  }

  /** CheckBlock. */
  method CheckBlock(o: Oracle, b: Block) returns (ok: bool)
    ensures ok <==> WellFormedBlock(o, b)
  {
    if b.vtx == [] || !o.blockOk(b) {
      return false;
    }
    if !b.vtx[0].IsCoinBase() {
      return false;
    }
    ok := CheckKinds(b);
    if !ok {
      return;
    }
    ok := CheckTransactions(b.vtx);
    if !ok {
      return;
    }
    ok := CheckUnique(b.vtx);
  }

  /** The checks on coinbases and coinstakes. */
  method CheckKinds(b: Block) returns (ok: bool)
    requires b.vtx != []
    ensures ok <==>
      && (forall i :: 1 <= i < |b.vtx| ==> !b.vtx[i].IsCoinBase())
      && (b.IsProofOfStake() ==>
            && |b.vtx[0].vout| == 1 && b.vtx[0].vout[0].IsEmpty()
            && forall i :: 2 <= i < |b.vtx| ==> !b.vtx[i].IsCoinStake())
  {
    ok := false;
    var i := 1;
    while i < |b.vtx|
      invariant 1 <= i <= |b.vtx| && forall j :: 1 <= j < i ==> !b.vtx[j].IsCoinBase()
    {
      if b.vtx[i].IsCoinBase() {
        return;
      }
      i := i + 1;
    }
    if b.IsProofOfStake() {
      if |b.vtx[0].vout| != 1 || !b.vtx[0].vout[0].IsEmpty() {
        return;
      }
      i := 2;
      while i < |b.vtx|
        invariant 2 <= i <= |b.vtx| && forall j :: 2 <= j < i ==> !b.vtx[j].IsCoinStake()
      {
        if b.vtx[i].IsCoinStake() {
          return;
        }
        i := i + 1;
      }
    }
    ok := true;
  }

  method CheckTransactions(vtx: seq<Tx>) returns (ok: bool)
    ensures ok <==> forall i :: 0 <= i < |vtx| ==> WellFormedTx(vtx[i])
  {
    var i := 0;
    while i < |vtx|
      invariant 0 <= i <= |vtx| && forall j :: 0 <= j < i ==> WellFormedTx(vtx[j])
    {
      ok := CheckTransaction(vtx[i]);
      if !ok {
        return;
      }
      i := i + 1;
    }
    ok := true;
  }

  /** No two transactions have the same hash: as many hashes as transactions. */
  method CheckUnique(vtx: seq<Tx>) returns (ok: bool)
    ensures ok <==> forall i, j :: 0 <= i < j < |vtx| ==> vtx[i].hash != vtx[j].hash
  {
    var uniqueTx: set<Hash> := {};
    var i := 0;
    while i < |vtx|
      invariant 0 <= i <= |vtx| && |uniqueTx| <= i
      invariant forall h :: h in uniqueTx <==> exists j :: 0 <= j < i && vtx[j].hash == h
      invariant |uniqueTx| == i <==> forall j, k :: 0 <= j < k < i ==> vtx[j].hash != vtx[k].hash
    {
      if vtx[i].hash in uniqueTx {
        assert uniqueTx + {vtx[i].hash} == uniqueTx;
      }
      uniqueTx := uniqueTx + {vtx[i].hash};
      i := i + 1;
    }
    ok := |uniqueTx| == |vtx|;
  }

  /** A node of the block tree.  Only `pnext` and the money fields change after the node
      is added; `block` is what reading the block back from disk yields. */
  class CBlockIndex {
    const hash: Hash
    const pprev: CBlockIndex?
    const nHeight: nat
    const nChainTrust: nat
    const nFile: nat
    const nBlockPos: nat
    const block: Block
    var pnext: CBlockIndex?
    var nMint: int
    var nMoneySupply: int

    constructor (block: Block, pprev: CBlockIndex?, blockTrust: nat, nFile: nat, nBlockPos: nat)
      ensures this.block == block && hash == block.hash && this.pprev == pprev
      ensures nHeight == if pprev == null then 0 else pprev.nHeight + 1
      ensures nChainTrust == (if pprev == null then 0 else pprev.nChainTrust) + blockTrust
      ensures this.nFile == nFile && this.nBlockPos == nBlockPos
      ensures pnext == null && nMint == 0 && nMoneySupply == 0
    {
      this.block, hash, this.pprev := block, block.hash, pprev;
      nHeight := if pprev == null then 0 else pprev.nHeight + 1;
      nChainTrust := (if pprev == null then 0 else pprev.nChainTrust) + blockTrust;
      this.nFile, this.nBlockPos := nFile, nBlockPos;
      pnext, nMint, nMoneySupply := null, 0, 0;
    }
  }

  predicate IsInMainChain(b: CBlockIndex, best: CBlockIndex?)
    reads b`pnext
  {
    b.pnext != null || b == best
  }

  function CompactSize(n: nat): nat {
    if n < 253 then 1 else if n <= 0xFFFF then 3 else if n <= 0xFFFF_FFFF then 5 else 9
  }

  /** A count takes one byte, or a marker and two, four or eight bytes. */
  lemma CompactSizes(n: nat)
    ensures CompactSize(n) == 1 <==> n <= 252
    ensures CompactSize(n) == 1 + 2 <==> 253 <= n <= 65_535
    ensures CompactSize(n) == 1 + 4 <==> 65_536 <= n <= 4_294_967_295
    ensures CompactSize(n) == 1 + 8 <==> n >= 4_294_967_296
  {
  }

  /** Offset of the i-th transaction of a block: header, transaction count, and the
      transactions before it. */
  function OffsetIn(o: Oracle, vtx: seq<Tx>, nBlockPos: nat, i: nat): nat
    requires i <= |vtx|
  {
    if i == 0 then nBlockPos + 80 + CompactSize(|vtx|)
    else OffsetIn(o, vtx, nBlockPos, i - 1) + o.txSize(vtx[i - 1])
  }

  function TxOffset(o: Oracle, b: CBlockIndex, i: nat): nat
    requires i <= |b.block.vtx|
  {
    OffsetIn(o, b.block.vtx, b.nBlockPos, i)
  }

  function TxPos(o: Oracle, b: CBlockIndex, i: nat): DiskTxPos
    requires i <= |b.block.vtx|
  {
    Pos(b.nFile, b.nBlockPos, TxOffset(o, b, i))
  }

  /** The transactions lie one after the other behind the header. */
  lemma {:induction false} OffsetsApart(o: Oracle, b: CBlockIndex, i: nat, j: nat)
    requires i < j <= |b.block.vtx|
    ensures b.nBlockPos + 80 < TxOffset(o, b, i) && TxOffset(o, b, i) + o.txSize(b.block.vtx[i]) <= TxOffset(o, b, j)
  {
    if i < j - 1 {
      OffsetsApart(o, b, i, j - 1);
    } else if i > 0 {
      OffsetsApart(o, b, 0, i);
    }
  }

  ghost function BatchOf(o: Oracle, b: CBlockIndex): (r: Batch)
    ensures r.txs == b.block.vtx && |r.pos| == |r.txs|
  {
    Batch(b.block.vtx, seq(|b.block.vtx|, i requires 0 <= i < |b.block.vtx| => TxPos(o, b, i)))
  }

  /** Reading the block files at the block's positions yields its transactions. */
  ghost predicate Stored(o: Oracle, b: CBlockIndex) {
    forall i {:trigger TxPos(o, b, i)} :: 0 <= i < |b.block.vtx| ==> o.disk(TxPos(o, b, i)) == Some(b.block.vtx[i])
  }

  /** The block files hold the block's transactions where WriteToDisk put them. */
  ghost predicate StoredAt(o: Oracle, vtx: seq<Tx>, nFile: nat, nBlockPos: nat) {
    forall i {:trigger OffsetIn(o, vtx, nBlockPos, i)} :: 0 <= i < |vtx| ==>
      o.disk(Pos(nFile, nBlockPos, OffsetIn(o, vtx, nBlockPos, i))) == Some(vtx[i])
  }

  lemma StoredHere(o: Oracle, b: CBlockIndex)
    requires StoredAt(o, b.block.vtx, b.nFile, b.nBlockPos)
    ensures Stored(o, b)
  {
  }

  lemma {:induction false} OffsetsPositive(o: Oracle, b: CBlockIndex, i: nat)
    requires i <= |b.block.vtx|
    ensures TxOffset(o, b, i) >= 80 && TxPos(o, b, i) != MEMPOOL_POS
  {
    if i > 0 {
      OffsetsPositive(o, b, i - 1);
    }
  }

  /** The parents of a node are numbered down to 0. */
  ghost predicate Linked(b: CBlockIndex)
    decreases b.nHeight
  {
    if b.pprev == null then b.nHeight == 0
    else b.pprev.nHeight == b.nHeight - 1 && Linked(b.pprev)
  }

  /** The ancestor of a node at a height. */
  ghost function Anc(b: CBlockIndex, h: nat): CBlockIndex
    requires Linked(b) && h <= b.nHeight
    ensures Linked(Anc(b, h)) && Anc(b, h).nHeight == h
    decreases b.nHeight
  {
    if h == b.nHeight then b else Anc(b.pprev, h)
  }

  ghost predicate OnPath(x: CBlockIndex, b: CBlockIndex)
    requires Linked(b)
  {
    x.nHeight <= b.nHeight && Anc(b, x.nHeight) == x
  }

  lemma {:induction false} AncAnc(b: CBlockIndex, h: nat, g: nat)
    requires Linked(b) && g <= h <= b.nHeight
    ensures Anc(Anc(b, h), g) == Anc(b, g)
    decreases b.nHeight
  {
    if h < b.nHeight {
      AncAnc(b.pprev, h, g);
    }
  }

  lemma AncParent(b: CBlockIndex, h: nat)
    requires Linked(b) && h < b.nHeight
    ensures Anc(b, h + 1).pprev == Anc(b, h)
  {
    AncAnc(b, h + 1, h);
  }
}
