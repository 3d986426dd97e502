/** Model of the framework's native-function registration: the native error
    codes, the all-zero gas schedule, the assembly of the native function
    table from the per-module native lists, and the patch that renames the
    module of every table entry to `table`.

    The native implementations and each module's `make_all` are foreign:
    their outputs are given as functions of the module's gas parameters. */
module Natives {

  newtype u64 = x: int | 0 <= x < 0x1_0000_0000_0000_0000

  // ---------------------------------------------------------------------
  // Native error codes

  /** Failure in parsing a struct type tag. */
  const NfeExpectedStructTypeTag: u64 := 0x1
  /** Failure in parsing an address (likely not of the right length). */
  const NfeUnableToParseAddress: u64 := 0x2

  /** The two native error codes are 1 and 2 and can be told apart. */
  lemma StatusCodesDistinct()
    ensures NfeExpectedStructTypeTag == 1 && NfeUnableToParseAddress == 2
    ensures NfeExpectedStructTypeTag != NfeUnableToParseAddress
  {
  }

  // ---------------------------------------------------------------------
  // Gas parameters, one datatype per parameter struct of the framework

  datatype CreateAddressGasParameters = CreateAddressGasParameters(baseCost: nat)
  datatype CreateSignerGasParameters = CreateSignerGasParameters(baseCost: nat)
  datatype AccountGasParameters = AccountGasParameters(
    createAddress: CreateAddressGasParameters,
    createSigner: CreateSignerGasParameters)

  datatype LittleEndianBitVectorFromByteVectorGasParams = LittleEndianBitVectorFromByteVectorGasParams(baseCost: nat, perByteCost: nat)
  datatype BigEndianBitVectorFromByteVectorGasParams = BigEndianBitVectorFromByteVectorGasParams(baseCost: nat, perByteCost: nat)
  datatype BitVectorGasParameters = BitVectorGasParameters(
    littleEndianBitvectorFromByteVector: LittleEndianBitVectorFromByteVectorGasParams,
    bigEndianBitvectorFromByteVector: BigEndianBitVectorFromByteVectorGasParams)

  datatype Ed25519ValidatePubkeyGasParameters = Ed25519ValidatePubkeyGasParameters(
    baseCost: nat, perPubkeyDeserializeCost: nat, perPubkeySmallOrderCheckCost: nat)
  datatype Ed25519VerifyGasParameters = Ed25519VerifyGasParameters(
    baseCost: nat, perPubkeyDeserializeCost: nat, perSigDeserializeCost: nat,
    perSigStrictVerifyCost: nat, perMsgHashingBaseCost: nat, perMsgByteHashingCost: nat)
  datatype Secp256k1EcdsaRecoverGasParameters = Secp256k1EcdsaRecoverGasParameters(baseCost: nat)
  datatype SignatureGasParameters = SignatureGasParameters(
    ed25519ValidatePubkey: Ed25519ValidatePubkeyGasParameters,
    ed25519Verify: Ed25519VerifyGasParameters,
    secp256k1EcdsaRecover: Secp256k1EcdsaRecoverGasParameters)

  datatype Bls12381GasParameters = Bls12381GasParameters(
    baseCost: nat,
    perPubkeyDeserializeCost: nat, perPubkeyAggregateCost: nat, perPubkeySubgroupCheckCost: nat,
    perSigDeserializeCost: nat, perSigAggregateCost: nat, perSigSubgroupCheckCost: nat,
    perSigVerifyCost: nat, perPopVerifyCost: nat, perPairingCost: nat,
    perMsgHashingCost: nat, perByteHashingCost: nat)

  datatype PointIsCanonicalGasParameters = PointIsCanonicalGasParameters(baseCost: nat, isCanonicalCost: nat)
  datatype PointIdentityGasParameters = PointIdentityGasParameters(baseCost: nat)
  datatype PointDecompressGasParameters = PointDecompressGasParameters(baseCost: nat, decompressCost: nat)
  datatype PointCompressGasParameters = PointCompressGasParameters(baseCost: nat)
  datatype PointMulGasParameters = PointMulGasParameters(baseCost: nat)
  datatype PointEqualsGasParameters = PointEqualsGasParameters(baseCost: nat)
  datatype PointNegGasParameters = PointNegGasParameters(baseCost: nat)
  datatype PointAddGasParameters = PointAddGasParameters(baseCost: nat)
  datatype PointSubGasParameters = PointSubGasParameters(baseCost: nat)
  datatype ScalarIsCanonicalGasParameters = ScalarIsCanonicalGasParameters(baseCost: nat, perScalarDeserializeCost: nat)
  datatype ScalarInvertGasParameters = ScalarInvertGasParameters(baseCost: nat, perScalarInvertCost: nat)
  datatype ScalarFromSha512GasParameters = ScalarFromSha512GasParameters(baseCost: nat, perHashSha512Cost: nat, perByteSha512Cost: nat)
  datatype ScalarMulGasParameters = ScalarMulGasParameters(baseCost: nat, mulCost: nat)
  datatype ScalarAddGasParameters = ScalarAddGasParameters(baseCost: nat, addCost: nat)
  datatype ScalarSubGasParameters = ScalarSubGasParameters(baseCost: nat, subCost: nat)
  datatype ScalarNegGasParameters = ScalarNegGasParameters(baseCost: nat, negCost: nat)
  datatype ScalarFromU64GasParameters = ScalarFromU64GasParameters(baseCost: nat, fromU64Cost: nat)
  datatype ScalarFromU128GasParameters = ScalarFromU128GasParameters(baseCost: nat, fromU128Cost: nat)
  datatype ScalarFrom256BitsGasParameters = ScalarFrom256BitsGasParameters(baseCost: nat, from256BitsCost: nat)
  datatype ScalarFrom512BitsGasParameters = ScalarFrom512BitsGasParameters(baseCost: nat, from512BitsCost: nat)
  datatype Ristretto255GasParameters = Ristretto255GasParameters(
    pointIsCanonical: PointIsCanonicalGasParameters,
    pointIdentity: PointIdentityGasParameters,
    pointDecompress: PointDecompressGasParameters,
    pointCompress: PointCompressGasParameters,
    pointMul: PointMulGasParameters,
    pointEquals: PointEqualsGasParameters,
    pointNeg: PointNegGasParameters,
    pointAdd: PointAddGasParameters,
    pointSub: PointSubGasParameters,
    scalarIsCanonical: ScalarIsCanonicalGasParameters,
    scalarInvert: ScalarInvertGasParameters,
    scalarFromSha512: ScalarFromSha512GasParameters,
    scalarMul: ScalarMulGasParameters,
    scalarAdd: ScalarAddGasParameters,
    scalarSub: ScalarSubGasParameters,
    scalarNeg: ScalarNegGasParameters,
    scalarFromU64: ScalarFromU64GasParameters,
    scalarFromU128: ScalarFromU128GasParameters,
    scalarFrom256Bits: ScalarFrom256BitsGasParameters,
    scalarFrom512Bits: ScalarFrom512BitsGasParameters)

  datatype SipHashGasParameters = SipHashGasParameters(baseCost: nat, unitCost: nat)
  datatype HashGasParameters = HashGasParameters(sipHash: SipHashGasParameters)

  datatype TypeOfGasParameters = TypeOfGasParameters(baseCost: nat, unitCost: nat)
  datatype TypeNameGasParameters = TypeNameGasParameters(baseCost: nat, unitCost: nat)
  datatype TypeInfoGasParameters = TypeInfoGasParameters(typeOf: TypeOfGasParameters, typeName: TypeNameGasParameters)

  datatype FromBytesGasParameters = FromBytesGasParameters(baseCost: nat, unitCost: nat)
  datatype UtilGasParameters = UtilGasParameters(fromBytes: FromBytesGasParameters)

  datatype GetScriptHashGasParameters = GetScriptHashGasParameters(baseCost: nat)
  datatype TransactionContextGasParameters = TransactionContextGasParameters(getScriptHash: GetScriptHashGasParameters)

  datatype RequestPublishGasParameters = RequestPublishGasParameters(baseCost: nat, unitCost: nat)
  datatype CodeGasParameters = CodeGasParameters(requestPublish: RequestPublishGasParameters)

  datatype WriteToEventStoreGasParameters = WriteToEventStoreGasParameters(unitCost: nat)
  datatype EventGasParameters = EventGasParameters(writeToEventStore: WriteToEventStoreGasParameters)

  /** The gas parameters of every framework native module. */
  datatype GasParameters = GasParameters(
    account: AccountGasParameters,
    bitVector: BitVectorGasParameters,
    signature: SignatureGasParameters,
    bls12381: Bls12381GasParameters,
    ristretto255: Ristretto255GasParameters,
    hash: HashGasParameters,
    typeInfo: TypeInfoGasParameters,
    util: UtilGasParameters,
    transactionContext: TransactionContextGasParameters,
    code: CodeGasParameters,
    event: EventGasParameters)

  /** The values taken by the cost fields of each module's gas parameters. */
  function AccountCosts(a: AccountGasParameters): set<nat> {
    {a.createAddress.baseCost, a.createSigner.baseCost}
  }

  function BitVectorCosts(bv: BitVectorGasParameters): set<nat> {
    {bv.littleEndianBitvectorFromByteVector.baseCost, bv.littleEndianBitvectorFromByteVector.perByteCost,
     bv.bigEndianBitvectorFromByteVector.baseCost, bv.bigEndianBitvectorFromByteVector.perByteCost}
  }

  function SignatureCosts(s: SignatureGasParameters): set<nat> {
    {s.ed25519ValidatePubkey.baseCost, s.ed25519ValidatePubkey.perPubkeyDeserializeCost,
     s.ed25519ValidatePubkey.perPubkeySmallOrderCheckCost,
     s.ed25519Verify.baseCost, s.ed25519Verify.perPubkeyDeserializeCost, s.ed25519Verify.perSigDeserializeCost,
     s.ed25519Verify.perSigStrictVerifyCost, s.ed25519Verify.perMsgHashingBaseCost,
     s.ed25519Verify.perMsgByteHashingCost,
     s.secp256k1EcdsaRecover.baseCost}
  }

  function Bls12381Costs(b: Bls12381GasParameters): set<nat> {
    {b.baseCost, b.perPubkeyDeserializeCost, b.perPubkeyAggregateCost, b.perPubkeySubgroupCheckCost,
     b.perSigDeserializeCost, b.perSigAggregateCost, b.perSigSubgroupCheckCost, b.perSigVerifyCost,
     b.perPopVerifyCost, b.perPairingCost, b.perMsgHashingCost, b.perByteHashingCost}
  }

  function Ristretto255Costs(r: Ristretto255GasParameters): set<nat> {
    {r.pointIsCanonical.baseCost, r.pointIsCanonical.isCanonicalCost,
     r.pointIdentity.baseCost,
     r.pointDecompress.baseCost, r.pointDecompress.decompressCost,
     r.pointCompress.baseCost, r.pointMul.baseCost, r.pointEquals.baseCost,
     r.pointNeg.baseCost, r.pointAdd.baseCost, r.pointSub.baseCost}
    + {r.scalarIsCanonical.baseCost, r.scalarIsCanonical.perScalarDeserializeCost,
     r.scalarInvert.baseCost, r.scalarInvert.perScalarInvertCost,
     r.scalarFromSha512.baseCost, r.scalarFromSha512.perHashSha512Cost, r.scalarFromSha512.perByteSha512Cost,
     r.scalarMul.baseCost, r.scalarMul.mulCost,
     r.scalarAdd.baseCost, r.scalarAdd.addCost,
     r.scalarSub.baseCost, r.scalarSub.subCost,
     r.scalarNeg.baseCost, r.scalarNeg.negCost,
     r.scalarFromU64.baseCost, r.scalarFromU64.fromU64Cost,
     r.scalarFromU128.baseCost, r.scalarFromU128.fromU128Cost,
     r.scalarFrom256Bits.baseCost, r.scalarFrom256Bits.from256BitsCost,
     r.scalarFrom512Bits.baseCost, r.scalarFrom512Bits.from512BitsCost}
  }

  function HashCosts(h: HashGasParameters): set<nat> {
    {h.sipHash.baseCost, h.sipHash.unitCost}
  }

  function TypeInfoCosts(t: TypeInfoGasParameters): set<nat> {
    {t.typeOf.baseCost, t.typeOf.unitCost, t.typeName.baseCost, t.typeName.unitCost}
  }

  function UtilCosts(u: UtilGasParameters): set<nat> {
    {u.fromBytes.baseCost, u.fromBytes.unitCost}
  }

  function TransactionContextCosts(t: TransactionContextGasParameters): set<nat> {
    {t.getScriptHash.baseCost}
  }

  function CodeCosts(c: CodeGasParameters): set<nat> {
    {c.requestPublish.baseCost, c.requestPublish.unitCost}
  }

  function EventCosts(e: EventGasParameters): set<nat> {
    {e.writeToEventStore.unitCost}
  }

  /** The values taken by the cost fields of a gas schedule. */
  function CostValues(g: GasParameters): set<nat> {
    AccountCosts(g.account)
    + BitVectorCosts(g.bitVector)
    + SignatureCosts(g.signature)
    + Bls12381Costs(g.bls12381)
    + Ristretto255Costs(g.ristretto255)
    + HashCosts(g.hash)
    + TypeInfoCosts(g.typeInfo)
    + UtilCosts(g.util)
    + TransactionContextCosts(g.transactionContext)
    + CodeCosts(g.code)
    + EventCosts(g.event)
  }

  /** The gas schedule in which every native costs nothing. */
  function Zeros(): (g: GasParameters)
    ensures CostValues(g) == {0}
  {
    GasParameters(
      account := AccountGasParameters(
        createAddress := CreateAddressGasParameters(baseCost := 0),
        createSigner := CreateSignerGasParameters(baseCost := 0)),
      bls12381 := Bls12381GasParameters(0, 0, 0, 0, 0, 0, 0, 0, 0, 0, 0, 0),
      bitVector := BitVectorGasParameters(
        littleEndianBitvectorFromByteVector := LittleEndianBitVectorFromByteVectorGasParams(0, 0),
        bigEndianBitvectorFromByteVector := BigEndianBitVectorFromByteVectorGasParams(0, 0)),
      ristretto255 := Ristretto255GasParameters(
        pointIsCanonical := PointIsCanonicalGasParameters(0, 0),
        pointIdentity := PointIdentityGasParameters(0),
        pointDecompress := PointDecompressGasParameters(0, 0),
        pointCompress := PointCompressGasParameters(0),
        pointMul := PointMulGasParameters(0),
        pointEquals := PointEqualsGasParameters(0),
        pointNeg := PointNegGasParameters(0),
        pointAdd := PointAddGasParameters(0),
        pointSub := PointSubGasParameters(0),
        scalarIsCanonical := ScalarIsCanonicalGasParameters(0, 0),
        scalarInvert := ScalarInvertGasParameters(0, 0),
        scalarFromSha512 := ScalarFromSha512GasParameters(0, 0, 0),
        scalarMul := ScalarMulGasParameters(0, 0),
        scalarAdd := ScalarAddGasParameters(0, 0),
        scalarSub := ScalarSubGasParameters(0, 0),
        scalarNeg := ScalarNegGasParameters(0, 0),
        scalarFromU64 := ScalarFromU64GasParameters(0, 0),
        scalarFromU128 := ScalarFromU128GasParameters(0, 0),
        scalarFrom256Bits := ScalarFrom256BitsGasParameters(0, 0),
        scalarFrom512Bits := ScalarFrom512BitsGasParameters(0, 0)),
      signature := SignatureGasParameters(
        ed25519ValidatePubkey := Ed25519ValidatePubkeyGasParameters(0, 0, 0),
        ed25519Verify := Ed25519VerifyGasParameters(0, 0, 0, 0, 0, 0),
        secp256k1EcdsaRecover := Secp256k1EcdsaRecoverGasParameters(0)),
      hash := HashGasParameters(sipHash := SipHashGasParameters(0, 0)),
      typeInfo := TypeInfoGasParameters(
        typeOf := TypeOfGasParameters(0, 0),
        typeName := TypeNameGasParameters(0, 0)),
      util := UtilGasParameters(fromBytes := FromBytesGasParameters(0, 0)),
      transactionContext := TransactionContextGasParameters(getScriptHash := GetScriptHashGasParameters(0)),
      code := CodeGasParameters(requestPublish := RequestPublishGasParameters(0, 0)),
      event := EventGasParameters(writeToEventStore := WriteToEventStoreGasParameters(0)))
  }

  /** Parameters of account whose costs are all zero are those of Zeros. */
  lemma AccountZerosUnique(a: AccountGasParameters)
    requires AccountCosts(a) <= {0}
    ensures a == Zeros().account
  {
  }

  /** Parameters of bitVector whose costs are all zero are those of Zeros. */
  lemma BitVectorZerosUnique(bv: BitVectorGasParameters)
    requires BitVectorCosts(bv) <= {0}
    ensures bv == Zeros().bitVector
  {
  }

  /** Parameters of signature whose costs are all zero are those of Zeros. */
  lemma SignatureZerosUnique(s: SignatureGasParameters)
    requires SignatureCosts(s) <= {0}
    ensures s == Zeros().signature
  {
  }

  /** Parameters of bls12381 whose costs are all zero are those of Zeros. */
  lemma Bls12381ZerosUnique(b: Bls12381GasParameters)
    requires Bls12381Costs(b) <= {0}
    ensures b == Zeros().bls12381
  {
  }

  /** Parameters of ristretto255 whose costs are all zero are those of Zeros. */
  lemma Ristretto255ZerosUnique(r: Ristretto255GasParameters)
    requires Ristretto255Costs(r) <= {0}
    ensures r == Zeros().ristretto255
  {
  }

  /** Parameters of hash whose costs are all zero are those of Zeros. */
  lemma HashZerosUnique(h: HashGasParameters)
    requires HashCosts(h) <= {0}
    ensures h == Zeros().hash
  {
  }

  /** Parameters of typeInfo whose costs are all zero are those of Zeros. */
  lemma TypeInfoZerosUnique(t: TypeInfoGasParameters)
    requires TypeInfoCosts(t) <= {0}
    ensures t == Zeros().typeInfo
  {
  }

  /** Parameters of util whose costs are all zero are those of Zeros. */
  lemma UtilZerosUnique(u: UtilGasParameters)
    requires UtilCosts(u) <= {0}
    ensures u == Zeros().util
  {
  }

  /** Parameters of transactionContext whose costs are all zero are those of Zeros. */
  lemma TransactionContextZerosUnique(t: TransactionContextGasParameters)
    requires TransactionContextCosts(t) <= {0}
    ensures t == Zeros().transactionContext
  {
  }

  /** Parameters of code whose costs are all zero are those of Zeros. */
  lemma CodeZerosUnique(c: CodeGasParameters)
    requires CodeCosts(c) <= {0}
    ensures c == Zeros().code
  {
  }

  /** Parameters of event whose costs are all zero are those of Zeros. */
  lemma EventZerosUnique(e: EventGasParameters)
    requires EventCosts(e) <= {0}
    ensures e == Zeros().event
  {
  }

  /** CostValues covers every cost field: the all-zero schedule is the only
      one whose costs are all zero. */
  lemma ZerosUnique(g: GasParameters)
    requires CostValues(g) <= {0}
    ensures g == Zeros()
  {
    AccountZerosUnique(g.account);
    BitVectorZerosUnique(g.bitVector);
    SignatureZerosUnique(g.signature);
    Bls12381ZerosUnique(g.bls12381);
    Ristretto255ZerosUnique(g.ristretto255);
    HashZerosUnique(g.hash);
    TypeInfoZerosUnique(g.typeInfo);
    UtilZerosUnique(g.util);
    TransactionContextZerosUnique(g.transactionContext);
    CodeZerosUnique(g.code);
    EventZerosUnique(g.event);
  }

  // ---------------------------------------------------------------------
  // The native function table

  type AccountAddress = seq<bv8>

  /** A native as `make_all` yields it: its function name and implementation. */
  datatype Native<F> = Native(name: string, impl: F)

  /** A native tagged with the name of the module that declares it. */
  datatype Tagged<F> = Tagged(moduleName: string, name: string, impl: F)

  /** One entry of the native function table: (address, module, function
      name, implementation). */
  datatype TableEntry<F> = TableEntry(address: AccountAddress, moduleName: string, name: string, impl: F)

  /** The `make_all` of each native module, as a function of that module's
      gas parameters. */
  datatype MakeAll<F> = MakeAll(
    account: AccountGasParameters -> seq<Native<F>>,
    bitVector: BitVectorGasParameters -> seq<Native<F>>,
    signature: SignatureGasParameters -> seq<Native<F>>,
    bls12381: Bls12381GasParameters -> seq<Native<F>>,
    hash: HashGasParameters -> seq<Native<F>>,
    ristretto255: Ristretto255GasParameters -> seq<Native<F>>,
    typeInfo: TypeInfoGasParameters -> seq<Native<F>>,
    util: UtilGasParameters -> seq<Native<F>>,
    transactionContext: TransactionContextGasParameters -> seq<Native<F>>,
    code: CodeGasParameters -> seq<Native<F>>,
    event: EventGasParameters -> seq<Native<F>>)

  /** One module's contribution: its Move module name and its natives. */
  datatype Registration<F> = Registration(moduleName: string, natives: seq<Native<F>>)

  /** The Move module names, in the order the table lists them. */
  const ModuleNames: seq<string> := ["account", "bit_vector", "signature", "bls12381", "aptos_hash",
                                     "ristretto255", "type_info", "util", "transaction_context", "code", "event"]

  /** The registrations `all_natives` makes, in order; each module's
      `make_all` receives that module's own gas parameters. */
  function Registrations<F>(gas: GasParameters, makeAll: MakeAll<F>): (regs: seq<Registration<F>>)
    ensures |regs| == |ModuleNames|
    ensures forall p :: 0 <= p < |regs| ==> regs[p].moduleName == ModuleNames[p]
  {
    [Registration("account", makeAll.account(gas.account)),
     Registration("bit_vector", makeAll.bitVector(gas.bitVector)),
     Registration("signature", makeAll.signature(gas.signature)),
     Registration("bls12381", makeAll.bls12381(gas.bls12381)),
     Registration("aptos_hash", makeAll.hash(gas.hash)),
     Registration("ristretto255", makeAll.ristretto255(gas.ristretto255)),
     Registration("type_info", makeAll.typeInfo(gas.typeInfo)),
     Registration("util", makeAll.util(gas.util)),
     Registration("transaction_context", makeAll.transactionContext(gas.transactionContext)),
     Registration("code", makeAll.code(gas.code)),
     Registration("event", makeAll.event(gas.event))]
  }

  /** Tags every native of one module with the module's name. */
  function TagModule<F>(moduleName: string, natives: seq<Native<F>>): (r: seq<Tagged<F>>)
    ensures |r| == |natives|
    ensures forall j :: 0 <= j < |natives| ==>
      r[j].moduleName == moduleName && r[j].name == natives[j].name && r[j].impl == natives[j].impl
  {
    if natives == [] then []
    else TagModule(moduleName, natives[..|natives| - 1])
         + [Tagged(moduleName, natives[|natives| - 1].name, natives[|natives| - 1].impl)]
  }

  /** The tagged natives of the first n registrations, concatenated in
      order. */
  function Flatten<F>(regs: seq<Registration<F>>, n: nat): seq<Tagged<F>>
    requires n <= |regs|
  {
    if n == 0 then []
    else Flatten(regs, n - 1) + TagModule(regs[n - 1].moduleName, regs[n - 1].natives)
  }

  /** Number of natives of the first n registrations. */
  function TotalLength<F>(regs: seq<Registration<F>>, n: nat): nat
    requires n <= |regs|
  {
    if n == 0 then 0 else TotalLength(regs, n - 1) + |regs[n - 1].natives|
  }

  /** Position of the j-th native of the p-th registration in the assembled
      list: after all natives of the registrations before it. */
  function Slot<F>(regs: seq<Registration<F>>, p: nat, j: nat): nat
    requires p <= |regs|
  {
    TotalLength(regs, p) + j
  }

  /** Builds the table from tagged natives, putting the framework address
      in front of each. */
  function MakeTableFromIter<F>(address: AccountAddress, natives: seq<Tagged<F>>): (table: seq<TableEntry<F>>)
    ensures |table| == |natives|
    ensures forall i :: 0 <= i < |natives| ==>
      table[i] == TableEntry(address, natives[i].moduleName, natives[i].name, natives[i].impl)
  {
    if natives == [] then []
    else MakeTableFromIter(address, natives[..|natives| - 1])
         + [var n := natives[|natives| - 1]; TableEntry(address, n.moduleName, n.name, n.impl)]
  }

  /** The assembled list has one entry per registered native. */
  lemma {:induction false} FlattenLength<F>(regs: seq<Registration<F>>, n: nat)
    requires n <= |regs|
    ensures |Flatten(regs, n)| == TotalLength(regs, n)
  {
    if n > 0 {
      FlattenLength(regs, n - 1);
    }
  }

  /** The j-th native of the p-th registration sits right after the natives
      of the registrations before it, tagged with its module's name. */
  lemma {:induction false} FlattenAt<F>(regs: seq<Registration<F>>, n: nat, p: nat, j: nat)
    requires n <= |regs| && p < n && j < |regs[p].natives|
    ensures Slot(regs, p, j) < |Flatten(regs, n)|
    ensures Flatten(regs, n)[Slot(regs, p, j)]
         == Tagged(regs[p].moduleName, regs[p].natives[j].name, regs[p].natives[j].impl)
  {
    var init, last := Flatten(regs, n - 1), TagModule(regs[n - 1].moduleName, regs[n - 1].natives);
    FlattenLength(regs, n - 1);
    if p < n - 1 {
      FlattenAt(regs, n - 1, p, j);
      assert (init + last)[Slot(regs, p, j)] == init[Slot(regs, p, j)];
    } else {
      assert Slot(regs, p, j) == |init| + j;
      assert (init + last)[|init| + j] == last[j];
    }
  }

  /** Every entry of the assembled list carries the name of one of the
      registered modules. */
  lemma {:induction false} FlattenModules<F>(regs: seq<Registration<F>>, n: nat, i: nat)
    requires n <= |regs| && i < |Flatten(regs, n)|
    ensures exists p :: 0 <= p < n && Flatten(regs, n)[i].moduleName == regs[p].moduleName
  {
    if i < |Flatten(regs, n - 1)| {
      FlattenModules(regs, n - 1, i);
    } else {
      assert Flatten(regs, n)[i].moduleName == regs[n - 1].moduleName;
    }
  }

  /** What the assembled table is, for given registrations: one entry per
      registered native, at the framework address; the j-th native of the
      p-th module sits at its slot, tagged with that module's name and with
      its function name and implementation unchanged; no entry carries any
      other module name. */
  ghost predicate TableOf<F>(address: AccountAddress, regs: seq<Registration<F>>, table: seq<TableEntry<F>>) {
    && |table| == TotalLength(regs, |regs|)
    && (forall p: nat, j: nat :: p < |regs| && j < |regs[p].natives| ==>
          Slot(regs, p, j) < |table| &&
          table[Slot(regs, p, j)]
            == TableEntry(address, regs[p].moduleName, regs[p].natives[j].name, regs[p].natives[j].impl))
    && (forall i :: 0 <= i < |table| ==>
          table[i].address == address && exists p :: 0 <= p < |regs| && table[i].moduleName == regs[p].moduleName)
  }

  /** Tagging, concatenating and building the table yields TableOf. */
  lemma TableOfFlatten<F>(address: AccountAddress, regs: seq<Registration<F>>)
    ensures TableOf(address, regs, MakeTableFromIter(address, Flatten(regs, |regs|)))
  {
    FlattenLength(regs, |regs|);
    forall p: nat, j: nat | p < |regs| && j < |regs[p].natives| {
      FlattenAt(regs, |regs|, p, j);
    }
    forall i | 0 <= i < |Flatten(regs, |regs|)| {
      FlattenModules(regs, |regs|, i);
    }
  }

  /** Every position below the total number of natives is the slot of
      some native of some registration. */
  lemma {:induction false} SlotCover<F>(regs: seq<Registration<F>>, n: nat, i: nat)
    requires n <= |regs| && i < TotalLength(regs, n)
    ensures exists p: nat, j: nat :: p < n && j < |regs[p].natives| && Slot(regs, p, j) == i
  {
    assert n > 0;
    if i < TotalLength(regs, n - 1) {
      SlotCover(regs, n - 1, i);
    } else {
      assert Slot(regs, n - 1, i - TotalLength(regs, n - 1)) == i;
    }
  }

  /** TableOf determines the table: it has no entry besides the registered
      natives. */
  lemma TableOfUnique<F>(address: AccountAddress, regs: seq<Registration<F>>,
                         t1: seq<TableEntry<F>>, t2: seq<TableEntry<F>>)
    requires TableOf(address, regs, t1) && TableOf(address, regs, t2)
    ensures t1 == t2
  {
    forall i | 0 <= i < |t1| ensures t1[i] == t2[i] {
      SlotCover(regs, |regs|, i);
      var p: nat, j: nat :| p < |regs| && j < |regs[p].natives| && Slot(regs, p, j) == i;
    }
  }

  /** Eleven registrations assemble into their tagged natives in order. */
  lemma FlattenEleven<F>(regs: seq<Registration<F>>)
    requires |regs| == 11
    ensures Flatten(regs, 11) == [] +
        TagModule(regs[0].moduleName, regs[0].natives) + TagModule(regs[1].moduleName, regs[1].natives) +
        TagModule(regs[2].moduleName, regs[2].natives) + TagModule(regs[3].moduleName, regs[3].natives) +
        TagModule(regs[4].moduleName, regs[4].natives) + TagModule(regs[5].moduleName, regs[5].natives) +
        TagModule(regs[6].moduleName, regs[6].natives) + TagModule(regs[7].moduleName, regs[7].natives) +
        TagModule(regs[8].moduleName, regs[8].natives) + TagModule(regs[9].moduleName, regs[9].natives) +
        TagModule(regs[10].moduleName, regs[10].natives)
  {
    var t0 := TagModule(regs[0].moduleName, regs[0].natives);
    var t1 := TagModule(regs[1].moduleName, regs[1].natives);
    var t2 := TagModule(regs[2].moduleName, regs[2].natives);
    var t3 := TagModule(regs[3].moduleName, regs[3].natives);
    var t4 := TagModule(regs[4].moduleName, regs[4].natives);
    var t5 := TagModule(regs[5].moduleName, regs[5].natives);
    var t6 := TagModule(regs[6].moduleName, regs[6].natives);
    var t7 := TagModule(regs[7].moduleName, regs[7].natives);
    var t8 := TagModule(regs[8].moduleName, regs[8].natives);
    var t9 := TagModule(regs[9].moduleName, regs[9].natives);
    var t10 := TagModule(regs[10].moduleName, regs[10].natives);
    assert Flatten(regs, 1) == [] + t0;
    assert Flatten(regs, 2) == [] + t0 + t1;
    assert Flatten(regs, 3) == [] + t0 + t1 + t2;
    assert Flatten(regs, 4) == [] + t0 + t1 + t2 + t3;
    assert Flatten(regs, 5) == [] + t0 + t1 + t2 + t3 + t4;
    assert Flatten(regs, 6) == [] + t0 + t1 + t2 + t3 + t4 + t5;
    assert Flatten(regs, 7) == [] + t0 + t1 + t2 + t3 + t4 + t5 + t6;
    assert Flatten(regs, 8) == [] + t0 + t1 + t2 + t3 + t4 + t5 + t6 + t7;
    assert Flatten(regs, 9) == [] + t0 + t1 + t2 + t3 + t4 + t5 + t6 + t7 + t8;
    assert Flatten(regs, 10) == [] + t0 + t1 + t2 + t3 + t4 + t5 + t6 + t7 + t8 + t9;
    assert Flatten(regs, 11) == [] + t0 + t1 + t2 + t3 + t4 + t5 + t6 + t7 + t8 + t9 + t10;
  }

  /** The table built from the natives `all_natives` collects is the
      table of its registrations. */
  lemma AllNativesTable<F>(frameworkAddr: AccountAddress, gas: GasParameters, makeAll: MakeAll<F>,
                           natives: seq<Tagged<F>>)
    requires natives == [] +
        TagModule("account", makeAll.account(gas.account)) + TagModule("bit_vector", makeAll.bitVector(gas.bitVector)) +
        TagModule("signature", makeAll.signature(gas.signature)) + TagModule("bls12381", makeAll.bls12381(gas.bls12381)) +
        TagModule("aptos_hash", makeAll.hash(gas.hash)) + TagModule("ristretto255", makeAll.ristretto255(gas.ristretto255)) +
        TagModule("type_info", makeAll.typeInfo(gas.typeInfo)) + TagModule("util", makeAll.util(gas.util)) +
        TagModule("transaction_context", makeAll.transactionContext(gas.transactionContext)) + TagModule("code", makeAll.code(gas.code)) +
        TagModule("event", makeAll.event(gas.event))
    ensures TableOf(frameworkAddr, Registrations(gas, makeAll), MakeTableFromIter(frameworkAddr, natives))
  {
    FlattenEleven(Registrations(gas, makeAll));
    TableOfFlatten(frameworkAddr, Registrations(gas, makeAll));
  }

  /** `all_natives`: tags the natives of each framework module with that
      module's name, concatenates them in the fixed module order (account,
      bit_vector, signature, bls12381, aptos_hash, ristretto255, type_info,
      util, transaction_context, code, event), and builds the table at the
      framework address. */
  method AllNatives<F>(frameworkAddr: AccountAddress, gas: GasParameters, makeAll: MakeAll<F>)
    returns (table: seq<TableEntry<F>>)
    ensures TableOf(frameworkAddr, Registrations(gas, makeAll), table)
  {
    var natives: seq<Tagged<F>> := [];
    natives := AddNativesFromModule(natives, "account", makeAll.account(gas.account));
    natives := AddNativesFromModule(natives, "bit_vector", makeAll.bitVector(gas.bitVector));
    natives := AddNativesFromModule(natives, "signature", makeAll.signature(gas.signature));
    natives := AddNativesFromModule(natives, "bls12381", makeAll.bls12381(gas.bls12381));
    natives := AddNativesFromModule(natives, "aptos_hash", makeAll.hash(gas.hash));
    natives := AddNativesFromModule(natives, "ristretto255", makeAll.ristretto255(gas.ristretto255));
    natives := AddNativesFromModule(natives, "type_info", makeAll.typeInfo(gas.typeInfo));
    natives := AddNativesFromModule(natives, "util", makeAll.util(gas.util));
    natives := AddNativesFromModule(natives, "transaction_context", makeAll.transactionContext(gas.transactionContext));
    natives := AddNativesFromModule(natives, "code", makeAll.code(gas.code));
    natives := AddNativesFromModule(natives, "event", makeAll.event(gas.event));
    AllNativesTable(frameworkAddr, gas, makeAll, natives);
    table := MakeTableFromIter(frameworkAddr, natives);
  }

  /** `add_natives_from_module!`: appends the natives of one module, each
      tagged with that module's name, after the natives already there. */
  method AddNativesFromModule<F>(natives: seq<Tagged<F>>, moduleName: string, moduleNatives: seq<Native<F>>)
    returns (extended: seq<Tagged<F>>)
    ensures extended == natives + TagModule(moduleName, moduleNatives)
    ensures |extended| == |natives| + |moduleNatives|
    ensures extended[..|natives|] == natives
    ensures forall j :: 0 <= j < |moduleNatives| ==>
      extended[|natives| + j] == Tagged(moduleName, moduleNatives[j].name, moduleNatives[j].impl)
  {
    extended := natives + TagModule(moduleName, moduleNatives);
  }

  /** `patch_table_module`: renames the module of every entry to `table`,
      keeping the address, the function name and the implementation. */
  function PatchTableModule<F>(table: seq<TableEntry<F>>): (r: seq<TableEntry<F>>)
    ensures |r| == |table|
    ensures forall i :: 0 <= i < |table| ==>
      && r[i].moduleName == "table"
      && r[i].address == table[i].address
      && r[i].name == table[i].name
      && r[i].impl == table[i].impl
  {
    if table == [] then []
    else PatchTableModule(table[..|table| - 1]) + [table[|table| - 1].(moduleName := "table")]
  }

  /** Patching twice is patching once. */
  lemma PatchTableModuleIdempotent<F>(table: seq<TableEntry<F>>)
    ensures PatchTableModule(PatchTableModule(table)) == PatchTableModule(table)
  {
  }

  /** A table is left as it is by the patch exactly when every entry's
      module is already `table`. */
  lemma PatchTableModuleFixpoint<F>(table: seq<TableEntry<F>>)
    ensures PatchTableModule(table) == table <==> forall i :: 0 <= i < |table| ==> table[i].moduleName == "table"
  {
    if forall i :: 0 <= i < |table| ==> table[i].moduleName == "table" {
      forall i | 0 <= i < |table| ensures PatchTableModule(table)[i] == table[i] {
      }
    }
  }
}
