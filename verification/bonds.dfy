/** Batch validation of bonds, used for admission and for monitoring alike, and the monitor pass
    that punishes violations. */
module Bonds {
  import opened Types
  import opened Database
  import opened MempoolCache

  type BondId = string

  datatype TxOut = TxOut(script: string, value: nat)

  /** A transaction has a positive virtual size. */
  datatype Tx = Tx(txid: Txid, inputs: seq<OutPoint>, outputs: seq<TxOut>, extraVsize: nat) {
    function VSize(): nat { extraVsize + 1 }
  }

  datatype Table = Orderbook | ActiveTrades | Memory

  datatype MonitoringBond = MonitoringBond(txHex: Hex, tradeId: OfferId, requirements: BondRequirements, table: Table)

  datatype AcceptResult = AcceptResult(txid: Txid, allowed: bool)

  /** What the wallet, the node and the hash function answer. */
  datatype Chain = Chain(
    decode: Hex -> Option<Tx>,
    hash: Hex -> BondId,
    scriptsValid: Tx -> bool,
    spentValue: OutPoint -> Option<nat>,
    scriptOf: Address -> Option<string>,
    accepted: Txid -> bool,
    testAccept: seq<Hex> -> Option<seq<AcceptResult>>)

  datatype CallError = Undecodable | MissingInput | EmptyInputSum | BadAddress | NoBondOutput | Underflow | RpcFailed | UnknownTxid | InvalidSetting

  datatype Reason = BadScripts | InputsTooSmall | OutputTooSmall | FeeTooLow | NotAccepted | InputInMempool

  type Invalid = map<BondId, (MonitoringBond, Reason)>

  // ---- the sums of one transaction ----

  function Worth(chain: Chain, inputs: seq<OutPoint>): nat {
    if inputs == [] then 0
    else Worth(chain, inputs[..|inputs| - 1]) +
         match chain.spentValue(inputs[|inputs| - 1]) { case Some(v) => v case None => 0 }
  }

  function Total(outputs: seq<TxOut>): nat {
    if outputs == [] then 0 else Total(outputs[..|outputs| - 1]) + outputs[|outputs| - 1].value
  }

  predicate AllKnown(chain: Chain, inputs: seq<OutPoint>) {
    forall o :: o in inputs ==> chain.spentValue(o).Some?
  }

  predicate PaysTo(tx: Tx, script: string) {
    exists i :: 0 <= i < |tx.outputs| && tx.outputs[i].script == script
  }

  /** The value of the first output to the script. */
  function PaidTo(outputs: seq<TxOut>, script: string): nat {
    if outputs == [] then 0
    else if outputs[0].script == script then outputs[0].value
    else PaidTo(outputs[1..], script)
  }

  /** The first output to the script. */
  predicate FirstTo(outputs: seq<TxOut>, script: string, k: int) {
    0 <= k < |outputs| && outputs[k].script == script && forall i :: 0 <= i < k ==> outputs[i].script != script
  }

  method InputSum(chain: Chain, tx: Tx) returns (r: Result<nat, CallError>)
    ensures r.Ok? <==> AllKnown(chain, tx.inputs) && Worth(chain, tx.inputs) > 0
    ensures r.Ok? ==> r.value == Worth(chain, tx.inputs)
  {
    var sum := 0;
    for n := 0 to |tx.inputs|
      invariant AllKnown(chain, tx.inputs[..n]) && sum == Worth(chain, tx.inputs[..n])
    {
      assert tx.inputs[..n + 1][..n] == tx.inputs[..n];
      var value := chain.spentValue(tx.inputs[n]);
      if value.None? {
        return Err(MissingInput);
      }
      sum := sum + value.value;
    }
    assert tx.inputs[..|tx.inputs|] == tx.inputs;
    if sum == 0 {
      return Err(CallError.EmptyInputSum);
    }
    return Ok(sum);
  }

  method BondOutputSum(chain: Chain, tx: Tx, bondAddress: Address) returns (r: Result<nat, CallError>)
    ensures r.Ok? <==> chain.scriptOf(bondAddress).Some? && PaysTo(tx, chain.scriptOf(bondAddress).value)
    ensures r.Ok? ==> r.value == PaidTo(tx.outputs, chain.scriptOf(bondAddress).value)
    ensures r.Ok? ==> exists k :: FirstTo(tx.outputs, chain.scriptOf(bondAddress).value, k) && r.value == tx.outputs[k].value
  {
    var script := chain.scriptOf(bondAddress);
    if script.None? {
      return Err(BadAddress);
    }
    for n := 0 to |tx.outputs|
      invariant forall i :: 0 <= i < n ==> tx.outputs[i].script != script.value
      invariant PaidTo(tx.outputs, script.value) == PaidTo(tx.outputs[n..], script.value)
    {
      if tx.outputs[n].script == script.value {
        assert FirstTo(tx.outputs, script.value, n);
        return Ok(tx.outputs[n].value);
      }
      assert tx.outputs[n..][1..] == tx.outputs[n + 1..];
    }
    return Err(NoBondOutput);
  }

  method AllOutputSum(tx: Tx) returns (sum: nat)
    ensures sum == Total(tx.outputs)
  {
    sum := 0;
    for n := 0 to |tx.outputs|
      invariant sum == Total(tx.outputs[..n])
    {
      assert tx.outputs[..n + 1][..n] == tx.outputs[..n];
      sum := sum + tx.outputs[n].value;
    }
    assert tx.outputs[..|tx.outputs|] == tx.outputs;
  }

  // ---- when a bond is bad, bond by bond ----

  function BondTx(chain: Chain, bond: MonitoringBond): Tx {
    match chain.decode(bond.txHex)
    case Some(tx) => tx
    case None => Tx("", [], [], 0)
  }

  function Id(chain: Chain, bond: MonitoringBond): BondId {
    chain.hash(bond.txHex)
  }

  function BondPaid(chain: Chain, bond: MonitoringBond): nat {
    match chain.scriptOf(bond.requirements.bondAddress)
    case Some(script) => PaidTo(BondTx(chain, bond).outputs, script)
    case None => 0
  }

  predicate FundsShort(chain: Chain, bond: MonitoringBond) {
    Worth(chain, BondTx(chain, bond).inputs) < bond.requirements.minInputSumSat
  }

  predicate BondShort(chain: Chain, bond: MonitoringBond) {
    BondPaid(chain, bond) < bond.requirements.lockingAmountSat
  }

  /** Scripts, input sum, bond output or fee are wrong; the fee must reach 200 sat per vbyte. */
  predicate FailsLocally(chain: Chain, bond: MonitoringBond) {
    var tx := BondTx(chain, bond);
    || !chain.scriptsValid(tx)
    || FundsShort(chain, bond)
    || BondShort(chain, bond)
    || Worth(chain, tx.inputs) - Total(tx.outputs) < 200 * tx.VSize()
  }

  predicate FailsAcceptance(chain: Chain, bond: MonitoringBond) {
    !chain.accepted(BondTx(chain, bond).txid)
  }

  predicate FailsLookup(chain: Chain, utxoSet: set<OutPoint>, bond: MonitoringBond) {
    exists o :: o in BondTx(chain, bond).inputs && o in utxoSet
  }

  predicate Fails(chain: Chain, utxoSet: set<OutPoint>, bond: MonitoringBond) {
    FailsLocally(chain, bond) || FailsAcceptance(chain, bond) || FailsLookup(chain, utxoSet, bond)
  }

  /** Nothing makes the whole call fail on account of this bond. A later check is only reached when
      the earlier ones pass. */
  predicate Checkable(chain: Chain, bond: MonitoringBond) {
    var tx := BondTx(chain, bond);
    && chain.decode(bond.txHex).Some?
    && (chain.scriptsValid(tx) ==>
          && AllKnown(chain, tx.inputs) && Worth(chain, tx.inputs) > 0
          && (!FundsShort(chain, bond) ==>
                && chain.scriptOf(bond.requirements.bondAddress).Some?
                && PaysTo(tx, chain.scriptOf(bond.requirements.bondAddress).value)
                && (!BondShort(chain, bond) ==> Total(tx.outputs) <= Worth(chain, tx.inputs))))
  }

  /** The local checks of one bond: None when it passes them. */
  method CheckBond(chain: Chain, bond: MonitoringBond) returns (r: Result<Option<Reason>, CallError>)
    ensures r.Ok? <==> Checkable(chain, bond)
    ensures r.Ok? ==> (r.value.Some? <==> FailsLocally(chain, bond))
    ensures r.Ok? ==>
      var tx := chain.decode(bond.txHex).value;
      r.value ==
        if !chain.scriptsValid(tx) then Some(BadScripts)
        else if Worth(chain, tx.inputs) < bond.requirements.minInputSumSat then Some(InputsTooSmall)
        else if PaidTo(tx.outputs, chain.scriptOf(bond.requirements.bondAddress).value) < bond.requirements.lockingAmountSat
        then Some(OutputTooSmall)
        else if Worth(chain, tx.inputs) - Total(tx.outputs) < 200 * tx.VSize() then Some(FeeTooLow)
        else None
  {
    var decoded := chain.decode(bond.txHex);
    if decoded.None? {
      return Err(Undecodable);
    }
    var tx := decoded.value;
    if !chain.scriptsValid(tx) {
      return Ok(Some(BadScripts));
    }
    var inputSum := InputSum(chain, tx);
    if inputSum.Err? {
      return Err(inputSum.error);
    }
    if inputSum.value < bond.requirements.minInputSumSat {
      return Ok(Some(InputsTooSmall));
    }
    var bondSum := BondOutputSum(chain, tx, bond.requirements.bondAddress);
    if bondSum.Err? {
      return Err(bondSum.error);
    }
    if bondSum.value < bond.requirements.lockingAmountSat {
      return Ok(Some(OutputTooSmall));
    }
    var outputSum := AllOutputSum(tx);
    if inputSum.value < outputSum {
      return Err(Underflow);
    }
    FeeRateDivision(inputSum.value - outputSum, tx.VSize());
    if (inputSum.value - outputSum) / tx.VSize() < 200 {
      return Ok(Some(FeeTooLow));
    }
    return Ok(None);
  }

  lemma FeeRateDivision(fee: nat, vsize: nat)
    requires vsize > 0
    ensures fee / vsize < 200 <==> fee < 200 * vsize
  {
    var q := fee / vsize;
    assert q * vsize <= fee < (q + 1) * vsize;
    if q < 200 {
      assert (q + 1) * vsize <= 200 * vsize;
    } else {
      assert 200 * vsize <= q * vsize;
    }
  }

  // ---- the batch ----

  /** `m` holds exactly the bad bonds of the list, each under its id. */
  ghost predicate Holds(chain: Chain, m: Invalid, bonds: seq<MonitoringBond>, bad: MonitoringBond -> bool) {
    && (forall b :: b in bonds && bad(b) ==> Id(chain, b) in m)
    && (forall id :: id in m ==> m[id].0 in bonds && bad(m[id].0) && Id(chain, m[id].0) == id)
  }

  lemma HoldsMore(chain: Chain, m: Invalid, bonds: seq<MonitoringBond>, b: MonitoringBond, reason: Option<Reason>, bad: MonitoringBond -> bool)
    requires Holds(chain, m, bonds, bad) && (reason.Some? <==> bad(b))
    ensures Holds(chain, if reason.Some? then m[Id(chain, b) := (b, reason.value)] else m, bonds + [b], bad)
  {
  }

  /** The same when the bond is entered as another bond with its id. */
  lemma HoldsFound(chain: Chain, m: Invalid, bonds: seq<MonitoringBond>, b: MonitoringBond, found: MonitoringBond,
                   bad: MonitoringBond -> bool)
    requires Holds(chain, m, bonds, bad) && Id(chain, b) == Id(chain, found)
    requires bad(found) && found in bonds + [b]
    ensures Holds(chain, m[Id(chain, found) := (found, NotAccepted)], bonds + [b], bad)
  {
  }

  /** Each entry is a bond of the list, under its own id. */
  ghost predicate FromList(chain: Chain, m: Invalid, bonds: seq<MonitoringBond>) {
    forall id :: id in m ==> m[id].0 in bonds && Id(chain, m[id].0) == id
  }

  /** Extending one map of bad bonds by another loses and invents nothing. */
  lemma HoldsMerged(chain: Chain, m1: Invalid, m2: Invalid, bonds: seq<MonitoringBond>,
                    bad1: MonitoringBond -> bool, bad2: MonitoringBond -> bool, bad: MonitoringBond -> bool)
    requires Holds(chain, m1, bonds, bad1) && Holds(chain, m2, bonds, bad2)
    requires forall b :: bad(b) <==> bad1(b) || bad2(b)
    ensures Holds(chain, m1 + m2, bonds, bad)
  {
  }

  /** A txid determines its transaction: bonds with one txid are one transaction, which may back
      several offers. */
  ghost predicate TxidsDetermine(chain: Chain, bonds: seq<MonitoringBond>) {
    forall b, c :: b in bonds && c in bonds && BondTx(chain, b).txid == BondTx(chain, c).txid ==> b.txHex == c.txHex
  }

  ghost predicate AllCheckable(chain: Chain, bonds: seq<MonitoringBond>) {
    forall b :: b in bonds ==> Checkable(chain, b)
  }

  /** The node answers a call of at most 25 transactions with one result for each, in order, and
      its answer for one does not depend on the others. */
  ghost predicate AnswersEach(chain: Chain) {
    forall raws :: |raws| <= 25 && (forall r :: r in raws ==> chain.decode(r).Some?) ==>
      && chain.testAccept(raws).Some?
      && |chain.testAccept(raws).value| == |raws|
      && forall i :: 0 <= i < |raws| ==>
           chain.testAccept(raws).value[i] ==
           AcceptResult(chain.decode(raws[i]).value.txid, chain.accepted(chain.decode(raws[i]).value.txid))
  }

  ghost predicate AllDecode(chain: Chain, bonds: seq<MonitoringBond>) {
    forall b :: b in bonds ==> chain.decode(b.txHex).Some?
  }

  ghost predicate NoneBefore(chain: Chain, bonds: seq<MonitoringBond>, k: int, txid: Txid) {
    forall i :: 0 <= i < k && i < |bonds| ==> BondTx(chain, bonds[i]).txid != txid
  }

  /** The first bond of this txid. */
  method SearchByTxid(chain: Chain, bonds: seq<MonitoringBond>, txid: Txid) returns (r: Result<MonitoringBond, CallError>)
    ensures r.Ok? ==> BondTx(chain, r.value).txid == txid
    ensures r.Ok? ==> exists k :: 0 <= k < |bonds| && bonds[k] == r.value && NoneBefore(chain, bonds, k, txid)
    ensures AllDecode(chain, bonds) ==> (r.Ok? <==> exists b :: b in bonds && BondTx(chain, b).txid == txid)
  {
    for n := 0 to |bonds|
      invariant forall i :: 0 <= i < n ==> BondTx(chain, bonds[i]).txid != txid
    {
      assert bonds[n] in bonds;
      var tx := chain.decode(bonds[n].txHex);
      if tx.None? {
        return Err(Undecodable);
      }
      if tx.value.txid == txid {
        return Ok(bonds[n]);
      }
    }
    return Err(UnknownTxid);
  }

  function Raws(bonds: seq<MonitoringBond>): (raws: seq<Hex>)
    ensures |raws| == |bonds| && forall i :: 0 <= i < |bonds| ==> raws[i] == bonds[i].txHex
  {
    seq(|bonds|, i requires 0 <= i < |bonds| => bonds[i].txHex)
  }

  function Answer(chain: Chain, bond: MonitoringBond): AcceptResult {
    AcceptResult(BondTx(chain, bond).txid, chain.accepted(BondTx(chain, bond).txid))
  }

  function Answers(chain: Chain, bonds: seq<MonitoringBond>): (answers: seq<AcceptResult>)
    ensures |answers| == |bonds| && forall i :: 0 <= i < |bonds| ==> answers[i] == Answer(chain, bonds[i])
  {
    seq(|bonds|, i requires 0 <= i < |bonds| => Answer(chain, bonds[i]))
  }

  lemma ChunkAnswered(chain: Chain, bonds: seq<MonitoringBond>, n: nat, end: nat)
    requires AnswersEach(chain) && AllDecode(chain, bonds) && n <= end <= |bonds| && end - n <= 25
    ensures chain.testAccept(Raws(bonds)[n..end]) == Some(Answers(chain, bonds)[n..end])
  {
    var chunk := Raws(bonds)[n..end];
    assert forall i :: 0 <= i < |chunk| ==> chunk[i] == bonds[n + i].txHex && bonds[n + i] in bonds;
    assert forall x :: x in chunk ==> chain.decode(x).Some?;
    assert chain.testAccept(chunk).value == Answers(chain, bonds)[n..end];
  }

  /** `chunks(25)` and the calls, one chunk at a time: one result for each bond, in order. */
  method CallInChunks(chain: Chain, bonds: seq<MonitoringBond>) returns (r: Result<seq<AcceptResult>, CallError>)
    ensures AnswersEach(chain) && AllDecode(chain, bonds) ==> r == Ok(Answers(chain, bonds))
  {
    var raws := Raws(bonds);
    var results: seq<AcceptResult> := [];
    var n := 0;
    while n < |raws|
      invariant n <= |raws|
      invariant AnswersEach(chain) && AllDecode(chain, bonds) ==> results == Answers(chain, bonds)[..n]
    {
      var end := if n + 25 < |raws| then n + 25 else |raws|;
      if AnswersEach(chain) && AllDecode(chain, bonds) {
        ChunkAnswered(chain, bonds, n, end);
        assert Answers(chain, bonds)[..end] == Answers(chain, bonds)[..n] + Answers(chain, bonds)[n..end];
      }
      var answer := chain.testAccept(raws[n..end]);
      if answer.None? {
        return Err(RpcFailed);
      }
      results := results + answer.value;
      n := end;
    }
    assert Answers(chain, bonds)[..|bonds|] == Answers(chain, bonds);
    return Ok(results);
  }

  method TestMempoolAcceptBonds(chain: Chain, bonds: seq<MonitoringBond>) returns (r: Result<Invalid, CallError>)
    ensures r.Ok? ==> FromList(chain, r.value, bonds)
    ensures AnswersEach(chain) && TxidsDetermine(chain, bonds) && AllDecode(chain, bonds) ==>
      r.Ok? && Holds(chain, r.value, bonds, b => FailsAcceptance(chain, b))
  {
    var results := CallInChunks(chain, bonds);
    if results.Err? {
      return Err(results.error);
    }
    r := CollectRejected(chain, bonds, results.value);
  }

  ghost predicate Traceable(chain: Chain, bonds: seq<MonitoringBond>, results: seq<AcceptResult>) {
    && TxidsDetermine(chain, bonds) && AllDecode(chain, bonds) && |results| == |bonds|
    && forall i :: 0 <= i < |bonds| ==> results[i] == Answer(chain, bonds[i])
  }

  /** The rejected results, each traced back to its bond by txid. */
  method CollectRejected(chain: Chain, bonds: seq<MonitoringBond>, results: seq<AcceptResult>) returns (r: Result<Invalid, CallError>)
    ensures r.Ok? ==> FromList(chain, r.value, bonds)
    ensures Traceable(chain, bonds, results) ==> r.Ok? && Holds(chain, r.value, bonds, b => FailsAcceptance(chain, b))
  {
    ghost var good := Traceable(chain, bonds, results);
    ghost var bad := b => FailsAcceptance(chain, b);
    var invalid: Invalid := map[];
    for n := 0 to |results|
      invariant FromList(chain, invalid, bonds)
      invariant good ==> Holds(chain, invalid, bonds[..n], bad)
    {
      var res := results[n];
      if good {
        assert bonds[..n + 1] == bonds[..n] + [bonds[n]] && bonds[n] in bonds;
      }
      if !res.allowed {
        var found := SearchByTxid(chain, bonds, res.txid);
        if found.Err? {
          return Err(found.error);
        }
        if good {
          HoldsFound(chain, invalid, bonds[..n], bonds[n], found.value, bad);
        }
        invalid := invalid[Id(chain, found.value) := (found.value, NotAccepted)];
      }
    }
    assert bonds[..|bonds|] == bonds;
    return Ok(invalid);
  }

  method LookupMempoolInputs(chain: Chain, utxoSet: set<OutPoint>, bonds: seq<MonitoringBond>) returns (r: Result<Invalid, CallError>)
    ensures r.Ok? <==> AllDecode(chain, bonds)
    ensures r.Ok? ==> Holds(chain, r.value, bonds, b => FailsLookup(chain, utxoSet, b))
  {
    ghost var bad := b => FailsLookup(chain, utxoSet, b);
    var punish: Invalid := map[];
    for n := 0 to |bonds|
      invariant AllDecode(chain, bonds[..n]) && Holds(chain, punish, bonds[..n], bad)
    {
      var bond := bonds[n];
      assert bonds[..n + 1] == bonds[..n] + [bond] && bond in bonds;
      var tx := chain.decode(bond.txHex);
      if tx.None? {
        return Err(Undecodable);
      }
      var i, found := 0, false;
      while i < |tx.value.inputs|
        invariant i <= |tx.value.inputs|
        invariant forall j :: 0 <= j < i ==> tx.value.inputs[j] !in utxoSet
        invariant !found
      {
        if tx.value.inputs[i] in utxoSet {
          found := true;
          break;
        }
        i := i + 1;
      }
      assert found <==> bad(bond);
      HoldsMore(chain, punish, bonds[..n], bond, if found then Some(InputInMempool) else None, bad);
      if found {
        punish := punish[Id(chain, bond) := (bond, InputInMempool)];
      }
    }
    assert bonds[..|bonds|] == bonds;
    return Ok(punish);
  }

  /** The stage of local checks over the whole list; one uncheckable bond fails the whole call. */
  method CheckAllLocally(chain: Chain, bonds: seq<MonitoringBond>) returns (r: Result<Invalid, CallError>)
    ensures r.Ok? <==> AllCheckable(chain, bonds)
    ensures r.Ok? ==> Holds(chain, r.value, bonds, b => FailsLocally(chain, b))
  {
    ghost var bad := b => FailsLocally(chain, b);
    var invalid: Invalid := map[];
    for n := 0 to |bonds|
      invariant AllCheckable(chain, bonds[..n]) && Holds(chain, invalid, bonds[..n], bad)
    {
      assert bonds[..n + 1] == bonds[..n] + [bonds[n]] && bonds[n] in bonds;
      var verdict := CheckBond(chain, bonds[n]);
      if verdict.Err? {
        return Err(verdict.error);
      }
      HoldsMore(chain, invalid, bonds[..n], bonds[n], verdict.value, bad);
      if verdict.value.Some? {
        invalid := invalid[Id(chain, bonds[n]) := (bonds[n], verdict.value.value)];
        continue;
      }
    }
    assert bonds[..|bonds|] == bonds;
    return Ok(invalid);
  }

  /** The batch equals the pointwise predicate. No uncheckable bond gets through; with a node that
      answers and distinct transactions the call succeeds exactly when every bond is checkable, and
      then the result holds exactly the failing bonds. */
  method ValidateBonds(chain: Chain, utxoSet: set<OutPoint>, bonds: seq<MonitoringBond>) returns (r: Result<Invalid, CallError>)
    ensures r.Ok? ==> AllCheckable(chain, bonds) && FromList(chain, r.value, bonds)
    ensures AnswersEach(chain) && TxidsDetermine(chain, bonds) ==>
      (r.Ok? <==> AllCheckable(chain, bonds))
      && (r.Ok? ==> Holds(chain, r.value, bonds, b => Fails(chain, utxoSet, b)))
  {
    var invalid := CheckAllLocally(chain, bonds);
    if invalid.Err? {
      return Err(invalid.error);
    }
    var notAccepted := TestMempoolAcceptBonds(chain, bonds);
    if notAccepted.Err? {
      return Err(notAccepted.error);
    }
    var inMempool := LookupMempoolInputs(chain, utxoSet, bonds);
    if inMempool.Err? {
      return Err(Undecodable);
    }
    if AnswersEach(chain) && TxidsDetermine(chain, bonds) {
      HoldsMerged(chain, invalid.value, notAccepted.value, bonds, b => FailsLocally(chain, b), b => FailsAcceptance(chain, b),
                  b => FailsLocally(chain, b) || FailsAcceptance(chain, b));
      HoldsMerged(chain, invalid.value + notAccepted.value, inMempool.value, bonds,
                  b => FailsLocally(chain, b) || FailsAcceptance(chain, b), b => FailsLookup(chain, utxoSet, b),
                  b => Fails(chain, utxoSet, b));
    }
    return Ok(invalid.value + notAccepted.value + inMempool.value);
  }

  /** Admission of one bond, through the same batch with one element. */
  method ValidateBondTxHex(chain: Chain, utxoSet: set<OutPoint>, txHex: Hex, requirements: BondRequirements)
    returns (admitted: bool)
    ensures var bond := MonitoringBond(txHex, "0", requirements, Memory);
      AnswersEach(chain) ==> (admitted <==> Checkable(chain, bond) && !Fails(chain, utxoSet, bond))
  {
    var bond := MonitoringBond(txHex, "0", requirements, Memory);
    var r := ValidateBonds(chain, utxoSet, [bond]);
    assert bond in [bond];
    return r.Ok? && |r.value| == 0;
  }

  /** Admission and monitoring agree: where a batch that holds this bond among others goes through,
      admission lets the bond in exactly when the batch does not name its transaction, whatever offer
      and table the bond is listed with. */
  method AdmissionAgreesWithMonitoring(chain: Chain, utxoSet: set<OutPoint>, bonds: seq<MonitoringBond>, bond: MonitoringBond)
    returns (admitted: bool, batch: Result<Invalid, CallError>)
    requires bond in bonds
    ensures AnswersEach(chain) && TxidsDetermine(chain, bonds) && batch.Ok? && OnlyWithId(chain, bonds, bond) ==>
      (admitted <==> Id(chain, bond) !in batch.value)
    ensures AnswersEach(chain) && TxidsDetermine(chain, bonds) && batch.Ok? && !admitted ==> Id(chain, bond) in batch.value
    ensures AnswersEach(chain) && bonds == [bond] ==> (admitted <==> batch == Ok(map[]))
  {
    admitted := ValidateBondTxHex(chain, utxoSet, bond.txHex, bond.requirements);
    batch := ValidateBonds(chain, utxoSet, bonds);
    ghost var dummy := MonitoringBond(bond.txHex, "0", bond.requirements, Memory);
    SameRule(chain, utxoSet, dummy, bond);
  }

  /** Every bond of the list with this id asks for the same. */
  ghost predicate OnlyWithId(chain: Chain, bonds: seq<MonitoringBond>, bond: MonitoringBond) {
    forall b :: b in bonds && Id(chain, b) == Id(chain, bond) ==> b.txHex == bond.txHex && b.requirements == bond.requirements
  }

  /** What a bond is checked against does not depend on the offer or the table it is listed with. */
  lemma SameRule(chain: Chain, utxoSet: set<OutPoint>, b: MonitoringBond, c: MonitoringBond)
    requires b.txHex == c.txHex && b.requirements == c.requirements
    ensures Checkable(chain, b) <==> Checkable(chain, c)
    ensures Fails(chain, utxoSet, b) <==> Fails(chain, utxoSet, c)
  {
  }

  // ---- one pass of the bond monitor ----

  datatype Action = Publish(txHex: Hex) | Remove(offerId: OfferId)

  /** PUNISHMENT_ENABLED */
  datatype Punishment = On | Off | BadSetting

  function BondOf(offerId: OfferId, offer: ActiveOffer): MonitoringBond {
    MonitoringBond(offer.bondTxHex, offerId,
                   BondRequirements(offer.bondAddress, offer.bondAmountSat, offer.amountSat), Orderbook)
  }

  /** The bond of every orderbook row. */
  method FetchAllBonds(db: CoordinatorDb) returns (bonds: seq<MonitoringBond>)
    ensures forall b :: b in bonds <==> b.tradeId in db.activeOffers && b == BondOf(b.tradeId, db.activeOffers[b.tradeId])
    ensures forall b :: b in bonds ==>
      var offer := db.activeOffers[b.tradeId];
      && b.txHex == offer.bondTxHex && b.requirements.bondAddress == offer.bondAddress
      && b.requirements.lockingAmountSat == offer.bondAmountSat && b.requirements.minInputSumSat == offer.amountSat
  {
    var order := InSomeOrder(db.activeOffers.Keys);
    bonds := [];
    for n := 0 to |order|
      invariant forall b :: b in bonds <==>
        b.tradeId in order[..n] && b.tradeId in db.activeOffers && b == BondOf(b.tradeId, db.activeOffers[b.tradeId])
    {
      assert order[..n + 1] == order[..n] + [order[n]];
      bonds := bonds + [BondOf(order[n], db.activeOffers[order[n]])];
    }
    assert order[..|order|] == order;
  }

  ghost predicate Listed(offers: map<OfferId, ActiveOffer>, bonds: seq<MonitoringBond>) {
    forall b :: b in bonds <==> b.tradeId in offers && b == BondOf(b.tradeId, offers[b.tradeId])
  }

  ghost predicate OfferFails(chain: Chain, utxoSet: set<OutPoint>, offers: map<OfferId, ActiveOffer>, o: OfferId) {
    o in offers && Fails(chain, utxoSet, BondOf(o, offers[o]))
  }

  /** The actions come in pairs: a bond is published, and then the offer it backs is removed. */
  ghost predicate InPairs(offers: map<OfferId, ActiveOffer>, actions: seq<Action>) {
    && |actions| % 2 == 0
    && forall k :: 0 <= k < |actions| ==>
         if k % 2 == 1 then actions[k].Remove? && actions[k].offerId in offers
         else actions[k].Publish? && PairedAt(offers, actions, k)
  }

  predicate PairedAt(offers: map<OfferId, ActiveOffer>, actions: seq<Action>, k: int) {
    && 0 <= k < |actions| - 1 && actions[k].Publish? && actions[k + 1].Remove? && actions[k + 1].offerId in offers
    && actions[k].txHex == offers[actions[k + 1].offerId].bondTxHex
  }

  /** The bonds of `ids` are published, and their offers removed, one after the other. */
  ghost predicate PunishedInOrder(invalid: Invalid, ids: seq<BondId>, actions: seq<Action>) {
    && |actions| == 2 * |ids|
    && (forall k :: 0 <= k < |ids| ==> PunishedAt(invalid, ids, actions, k))
    && (forall k, l :: 0 <= k < l < |ids| ==> ids[k] != ids[l])
  }

  predicate PunishedAt(invalid: Invalid, ids: seq<BondId>, actions: seq<Action>, k: int)
    requires 0 <= k < |ids| && |actions| == 2 * |ids|
  {
    ids[k] in invalid && actions[2 * k] == Publish(invalid[ids[k]].0.txHex) && actions[2 * k + 1] == Remove(invalid[ids[k]].0.tradeId)
  }

  lemma PunishedMore(invalid: Invalid, ids: seq<BondId>, actions: seq<Action>, id: BondId)
    requires PunishedInOrder(invalid, ids, actions) && id in invalid && id !in ids
    ensures PunishedInOrder(invalid, ids + [id],
                            actions + [Publish(invalid[id].0.txHex), Remove(invalid[id].0.tradeId)])
  {
    var ids', actions' := ids + [id], actions + [Publish(invalid[id].0.txHex), Remove(invalid[id].0.tradeId)];
    forall k | 0 <= k < |ids'| ensures PunishedAt(invalid, ids', actions', k) {
      if k < |ids| {
        assert PunishedAt(invalid, ids, actions, k);
      }
    }
  }

  /** Publishes and removes the given bonds one by one, each at most once; stops at the first failed
      publication. */
  method PunishAll(db: CoordinatorDb, invalid: Invalid, publishOk: Hex -> bool)
    returns (r: Result<(), CallError>, actions: seq<Action>, ghost ids: seq<BondId>)
    modifies db`activeOffers
    ensures PunishedInOrder(invalid, ids, actions) && forall id :: id in ids ==> id in invalid
    ensures forall o :: o in db.activeOffers <==>
      o in old(db.activeOffers) && forall id :: id in ids ==> invalid[id].0.tradeId != o
    ensures forall o :: o in db.activeOffers ==> db.activeOffers[o] == old(db.activeOffers)[o]
    ensures r.Ok? <==> forall id :: id in invalid ==> id in ids
    ensures (forall id :: id in invalid ==> publishOk(invalid[id].0.txHex)) ==> r.Ok?
  {
    actions, ids := [], [];
    var rest := invalid.Keys;
    while rest != {}
      invariant rest <= invalid.Keys
      invariant PunishedInOrder(invalid, ids, actions)
      invariant forall id :: id in ids <==> id in invalid && id !in rest
      invariant forall o :: o in db.activeOffers <==>
        o in old(db.activeOffers) && forall id :: id in ids ==> invalid[id].0.tradeId != o
      invariant forall o :: o in db.activeOffers ==> db.activeOffers[o] == old(db.activeOffers)[o]
      decreases rest
    {
      var id :| id in rest;
      var bond := invalid[id].0;
      if !publishOk(bond.txHex) {
        return Err(RpcFailed), actions, ids;
      }
      PunishedMore(invalid, ids, actions, id);
      actions := actions + [Publish(bond.txHex), Remove(bond.tradeId)];
      ids := ids + [id];
      db.RemoveFromOrderbook(bond.tradeId);
      rest := rest - {id};
    }
    return Ok(()), actions, ids;
  }

  /** Some publication is of this bond transaction, and only one. */
  ghost predicate PublishedOnce(chain: Chain, actions: seq<Action>, id: BondId) {
    && (exists k :: PublishedAs(chain, actions, k, id))
    && forall k, l :: PublishedAs(chain, actions, k, id) && PublishedAs(chain, actions, l, id) ==> k == l
  }

  predicate PublishedAs(chain: Chain, actions: seq<Action>, k: int, id: BondId) {
    0 <= k < |actions| && actions[k].Publish? && chain.hash(actions[k].txHex) == id
  }

  /** What is published in a pass, from the order in which it punishes. */
  lemma PunishedIsPublished(chain: Chain, offers: map<OfferId, ActiveOffer>, bonds: seq<MonitoringBond>, invalid: Invalid,
                            ids: seq<BondId>, actions: seq<Action>)
    requires Listed(offers, bonds) && FromList(chain, invalid, bonds) && PunishedInOrder(invalid, ids, actions)
    ensures InPairs(offers, actions)
    ensures forall k, id :: PublishedAs(chain, actions, k, id) ==> id in ids && k == 2 * IndexOf(ids, id)
    ensures forall id :: id in ids ==> PublishedOnce(chain, actions, id)
  {
    forall k | 0 <= k < |actions|
      ensures if k % 2 == 1 then actions[k].Remove? && actions[k].offerId in offers
              else actions[k].Publish? && PairedAt(offers, actions, k) && PublishedAs(chain, actions, k, ids[k / 2])
    {
      assert PunishedAt(invalid, ids, actions, k / 2);
    }
    forall k, id | PublishedAs(chain, actions, k, id) ensures id in ids && k == 2 * IndexOf(ids, id) {
      assert PunishedAt(invalid, ids, actions, k / 2);
      assert ids[k / 2] == id;
    }
    forall id | id in ids ensures PublishedOnce(chain, actions, id) {
      assert PublishedAs(chain, actions, 2 * IndexOf(ids, id), id);
    }
  }

  function IndexOf(ids: seq<BondId>, id: BondId): (k: int)
    ensures id in ids ==> 0 <= k < |ids| && ids[k] == id
  {
    if ids == [] then -1 else if ids[0] == id then 0
    else IndexOf(ids[1..], id) + 1
  }

  /** Offers whose bond transactions have one txid are backed by one transaction. */
  ghost predicate BondTxidsDetermine(chain: Chain, offers: map<OfferId, ActiveOffer>) {
    forall o, p :: o in offers && p in offers
      && BondTx(chain, BondOf(o, offers[o])).txid == BondTx(chain, BondOf(p, offers[p])).txid
      ==> offers[o].bondTxHex == offers[p].bondTxHex
  }

  lemma ListTxidsDetermine(chain: Chain, offers: map<OfferId, ActiveOffer>, bonds: seq<MonitoringBond>)
    requires Listed(offers, bonds) && BondTxidsDetermine(chain, offers)
    ensures TxidsDetermine(chain, bonds)
  {
  }

  predicate SameBond(chain: Chain, offers: map<OfferId, ActiveOffer>, o: OfferId, p: OfferId) {
    o in offers && p in offers && Id(chain, BondOf(o, offers[o])) == Id(chain, BondOf(p, offers[p]))
  }

  /** Of the offers backed by one bond transaction at most one was removed. */
  ghost predicate OneForEachBond(chain: Chain, offers: map<OfferId, ActiveOffer>, after: map<OfferId, ActiveOffer>) {
    forall o, p :: SameBond(chain, offers, o, p) && o !in after && p !in after ==> o == p
  }

  /** For each offer whose bond fails, a failing offer backed by the same bond was removed. */
  ghost predicate EachBondPunished(chain: Chain, utxoSet: set<OutPoint>, offers: map<OfferId, ActiveOffer>, after: map<OfferId, ActiveOffer>) {
    forall o :: OfferFails(chain, utxoSet, offers, o) ==>
      exists p :: SameBond(chain, offers, o, p) && OfferFails(chain, utxoSet, offers, p) && p !in after
  }

  /** No offer with a good bond was removed or changed. */
  ghost predicate GoodOnesStay(chain: Chain, utxoSet: set<OutPoint>, offers: map<OfferId, ActiveOffer>, after: map<OfferId, ActiveOffer>) {
    forall o :: o in offers && !OfferFails(chain, utxoSet, offers, o) ==> o in after && after[o] == offers[o]
  }

  /** What PunishAll says about the orderbook. */
  ghost predicate Punished(offers: map<OfferId, ActiveOffer>, after: map<OfferId, ActiveOffer>, invalid: Invalid, finished: bool) {
    && (forall o :: o in after ==> o in offers && after[o] == offers[o])
    && (forall o :: o in offers && o !in after ==> exists id :: id in invalid && invalid[id].0.tradeId == o)
    && (finished ==> forall id :: id in invalid ==> invalid[id].0.tradeId !in after)
  }

  lemma PunishedOneForEachBond(chain: Chain, offers: map<OfferId, ActiveOffer>, after: map<OfferId, ActiveOffer>,
                               bonds: seq<MonitoringBond>, invalid: Invalid, finished: bool)
    requires Listed(offers, bonds) && FromList(chain, invalid, bonds) && Punished(offers, after, invalid, finished)
    ensures OneForEachBond(chain, offers, after)
  {
    forall o, p | SameBond(chain, offers, o, p) && o !in after && p !in after ensures o == p {
      var i :| i in invalid && invalid[i].0.tradeId == o;
      var j :| j in invalid && invalid[j].0.tradeId == p;
      assert i == Id(chain, BondOf(o, offers[o])) && j == Id(chain, BondOf(p, offers[p]));
    }
  }

  /** The offers the batch result names fail, and every failing bond is named through one offer. */
  lemma PassIsExact(chain: Chain, utxoSet: set<OutPoint>, offers: map<OfferId, ActiveOffer>, after: map<OfferId, ActiveOffer>,
                    bonds: seq<MonitoringBond>, invalid: Invalid, finished: bool)
    requires Listed(offers, bonds) && Punished(offers, after, invalid, finished)
    requires Holds(chain, invalid, bonds, b => Fails(chain, utxoSet, b))
    ensures GoodOnesStay(chain, utxoSet, offers, after)
    ensures finished ==> EachBondPunished(chain, utxoSet, offers, after)
  {
    forall o | o in offers && !OfferFails(chain, utxoSet, offers, o) ensures o in after {
      assert forall id :: id in invalid ==> invalid[id].0.tradeId != o;
    }
    if finished {
      forall o | OfferFails(chain, utxoSet, offers, o)
        ensures exists p :: SameBond(chain, offers, o, p) && OfferFails(chain, utxoSet, offers, p) && p !in after
      {
        var b := BondOf(o, offers[o]);
        assert b in bonds && Id(chain, b) in invalid;
        var p := invalid[Id(chain, b)].0.tradeId;
        assert SameBond(chain, offers, o, p) && OfferFails(chain, utxoSet, offers, p);
      }
    }
  }

  /** No two offers are backed by one bond transaction. */
  ghost predicate DistinctBonds(chain: Chain, offers: map<OfferId, ActiveOffer>) {
    forall o, p :: SameBond(chain, offers, o, p) ==> o == p
  }

  ghost function Passing(chain: Chain, utxoSet: set<OutPoint>, offers: map<OfferId, ActiveOffer>): map<OfferId, ActiveOffer> {
    map o | o in offers && !OfferFails(chain, utxoSet, offers, o) :: offers[o]
  }

  /** Two offers are backed by one bond transaction, and both fail. */
  ghost predicate FailTogether(chain: Chain, utxoSet: set<OutPoint>, offers: map<OfferId, ActiveOffer>, o: OfferId, p: OfferId) {
    && o != p && SameBond(chain, offers, o, p)
    && OfferFails(chain, utxoSet, offers, o) && OfferFails(chain, utxoSet, offers, p)
  }

  /** What is left of the orderbook by a finished pass is exactly the passing offers when and only
      when no two offers of one bond fail together. */
  lemma PassingLeftIff(chain: Chain, utxoSet: set<OutPoint>, offers: map<OfferId, ActiveOffer>, after: map<OfferId, ActiveOffer>)
    requires forall o :: o in after ==> o in offers && after[o] == offers[o]
    requires GoodOnesStay(chain, utxoSet, offers, after) && EachBondPunished(chain, utxoSet, offers, after)
    requires OneForEachBond(chain, offers, after)
    ensures after == Passing(chain, utxoSet, offers) <==> !exists o, p :: FailTogether(chain, utxoSet, offers, o, p)
  {
    if o, p :| FailTogether(chain, utxoSet, offers, o, p) {
      FailingTogetherLeavesOne(chain, utxoSet, offers, after, o, p);
    } else {
      forall o | OfferFails(chain, utxoSet, offers, o) ensures o !in after {
        var p :| SameBond(chain, offers, o, p) && OfferFails(chain, utxoSet, offers, p) && p !in after;
        assert o == p || FailTogether(chain, utxoSet, offers, o, p);
      }
    }
  }

  /** Of two offers of one bond that fail together a pass leaves one listed. */
  lemma FailingTogetherLeavesOne(chain: Chain, utxoSet: set<OutPoint>, offers: map<OfferId, ActiveOffer>,
                                 after: map<OfferId, ActiveOffer>, o: OfferId, p: OfferId)
    requires OneForEachBond(chain, offers, after) && FailTogether(chain, utxoSet, offers, o, p)
    ensures (o in after || p in after) && after != Passing(chain, utxoSet, offers)
  {
  }

  /** That occurs wherever one failing bond transaction is listed twice. */
  lemma OffersCanFailTogether(chain: Chain, utxoSet: set<OutPoint>, offer: ActiveOffer, o: OfferId, p: OfferId)
    requires o != p && Fails(chain, utxoSet, BondOf(o, offer))
    ensures FailTogether(chain, utxoSet, map[o := offer, p := offer], o, p)
  {
    SameRule(chain, utxoSet, BondOf(o, offer), BondOf(p, offer));
  }

  /** With distinct bonds exactly the passing offers are left. */
  lemma DistinctBondsLeavePassing(chain: Chain, utxoSet: set<OutPoint>, offers: map<OfferId, ActiveOffer>, after: map<OfferId, ActiveOffer>)
    requires DistinctBonds(chain, offers) && forall o :: o in after ==> o in offers && after[o] == offers[o]
    requires GoodOnesStay(chain, utxoSet, offers, after) && EachBondPunished(chain, utxoSet, offers, after)
    requires OneForEachBond(chain, offers, after)
    ensures after == Passing(chain, utxoSet, offers)
  {
    PassingLeftIff(chain, utxoSet, offers, after);
  }

  /** Every bond can be checked, and published should it have to be. */
  ghost predicate AllAnswer(chain: Chain, offers: map<OfferId, ActiveOffer>, publishOk: Hex -> bool) {
    forall o :: o in offers ==> Checkable(chain, BondOf(o, offers[o])) && publishOk(offers[o].bondTxHex)
  }

  /** Only failing bonds are published. */
  ghost predicate OnlyFailingPublished(chain: Chain, utxoSet: set<OutPoint>, offers: map<OfferId, ActiveOffer>, actions: seq<Action>) {
    forall h :: Publish(h) in actions ==> exists o :: OfferFails(chain, utxoSet, offers, o) && offers[o].bondTxHex == h
  }

  /** Each failing bond is published exactly once. */
  ghost predicate EachPublishedOnce(chain: Chain, utxoSet: set<OutPoint>, offers: map<OfferId, ActiveOffer>, actions: seq<Action>) {
    forall o :: OfferFails(chain, utxoSet, offers, o) ==> PublishedOnce(chain, actions, Id(chain, BondOf(o, offers[o])))
  }

  lemma PublishedOnesFail(chain: Chain, utxoSet: set<OutPoint>, offers: map<OfferId, ActiveOffer>, bonds: seq<MonitoringBond>,
                          invalid: Invalid, ids: seq<BondId>, actions: seq<Action>)
    requires Listed(offers, bonds) && PunishedInOrder(invalid, ids, actions)
    requires Holds(chain, invalid, bonds, b => Fails(chain, utxoSet, b))
    ensures OnlyFailingPublished(chain, utxoSet, offers, actions)
  {
    forall h | Publish(h) in actions
      ensures exists o :: OfferFails(chain, utxoSet, offers, o) && offers[o].bondTxHex == h
    {
      var k :| 0 <= k < |actions| && actions[k] == Publish(h);
      assert PunishedAt(invalid, ids, actions, k / 2);
      assert OfferFails(chain, utxoSet, offers, invalid[ids[k / 2]].0.tradeId);
    }
  }

  lemma FailingOnesPublished(chain: Chain, utxoSet: set<OutPoint>, offers: map<OfferId, ActiveOffer>, bonds: seq<MonitoringBond>,
                             invalid: Invalid, ids: seq<BondId>, actions: seq<Action>)
    requires Listed(offers, bonds) && FromList(chain, invalid, bonds) && PunishedInOrder(invalid, ids, actions)
    requires Holds(chain, invalid, bonds, b => Fails(chain, utxoSet, b))
    requires forall id :: id in invalid ==> id in ids
    ensures EachPublishedOnce(chain, utxoSet, offers, actions)
  {
    PunishedIsPublished(chain, offers, bonds, invalid, ids, actions);
    forall o | OfferFails(chain, utxoSet, offers, o)
      ensures PublishedOnce(chain, actions, Id(chain, BondOf(o, offers[o])))
    {
      assert BondOf(o, offers[o]) in bonds;
    }
  }

  /** One pass. It never touches another table and removes at most one of the offers that share a
      bond, each right after publishing it. It publishes nothing with punishment off or set badly,
      only failing bonds with a node that answers, and in a finished pass each of them once. With a node that answers it removes no offer with a good
      bond, even when it stops early; with punishment on and no call error it removes exactly one
      failing offer for each failing bond, which is every failing offer exactly when no two offers of
      one bond fail together. */
  method MonitorPass(db: CoordinatorDb, chain: Chain, utxoSet: set<OutPoint>, punishment: Punishment, publishOk: Hex -> bool)
    returns (r: Result<(), CallError>, actions: seq<Action>)
    modifies db`activeOffers
    ensures InPairs(old(db.activeOffers), actions)
    ensures !punishment.On? ==> actions == [] && db.activeOffers == old(db.activeOffers)
    ensures AnswersEach(chain) && BondTxidsDetermine(chain, old(db.activeOffers)) ==>
      OnlyFailingPublished(chain, utxoSet, old(db.activeOffers), actions)
    ensures AnswersEach(chain) && BondTxidsDetermine(chain, old(db.activeOffers)) && punishment.On? && r.Ok? ==>
      EachPublishedOnce(chain, utxoSet, old(db.activeOffers), actions)
    ensures OneForEachBond(chain, old(db.activeOffers), db.activeOffers)
    ensures AnswersEach(chain) && BondTxidsDetermine(chain, old(db.activeOffers)) ==>
      GoodOnesStay(chain, utxoSet, old(db.activeOffers), db.activeOffers)
    ensures AnswersEach(chain) && BondTxidsDetermine(chain, old(db.activeOffers)) && punishment.On? && r.Ok? ==>
      EachBondPunished(chain, utxoSet, old(db.activeOffers), db.activeOffers)
    ensures AnswersEach(chain) && BondTxidsDetermine(chain, old(db.activeOffers)) && punishment.On? && r.Ok? ==>
      (db.activeOffers == Passing(chain, utxoSet, old(db.activeOffers)) <==>
       !exists o, p :: FailTogether(chain, utxoSet, old(db.activeOffers), o, p))
    ensures AnswersEach(chain) && BondTxidsDetermine(chain, old(db.activeOffers)) && punishment.On? ==>
      AllAnswer(chain, old(db.activeOffers), publishOk) ==> r.Ok?
  {
    actions := [];
    var bonds := FetchAllBonds(db);
    if bonds == [] {
      assert forall o :: o in db.activeOffers ==> BondOf(o, db.activeOffers[o]) in bonds;
      return Ok(()), [];
    }
    if BondTxidsDetermine(chain, db.activeOffers) {
      ListTxidsDetermine(chain, db.activeOffers, bonds);
    }
    var results := ValidateBonds(chain, utxoSet, bonds);
    if results.Err? {
      return Err(results.error), [];
    }
    match punishment
    case Off => return Ok(()), [];
    case BadSetting =>
      if |results.value| > 0 {
        return Err(InvalidSetting), [];
      }
      return Ok(()), [];
    case On =>
      ghost var offers := db.activeOffers;
      assert AllAnswer(chain, offers, publishOk) ==>
        forall id :: id in results.value ==> publishOk(results.value[id].0.txHex);
      ghost var ids;
      r, actions, ids := PunishAll(db, results.value, publishOk);
      PunishedIsPublished(chain, offers, bonds, results.value, ids, actions);
      assert Punished(offers, db.activeOffers, results.value, r.Ok?);
      PunishedOneForEachBond(chain, offers, db.activeOffers, bonds, results.value, r.Ok?);
      if AnswersEach(chain) && BondTxidsDetermine(chain, offers) {
        PassIsExact(chain, utxoSet, offers, db.activeOffers, bonds, results.value, r.Ok?);
        PublishedOnesFail(chain, utxoSet, offers, bonds, results.value, ids, actions);
        if r.Ok? {
          FailingOnesPublished(chain, utxoSet, offers, bonds, results.value, ids, actions);
          PassingLeftIff(chain, utxoSet, offers, db.activeOffers);
        }
      }
  }
}
