/** Records of the chain, with symbolic digests.

A digest is the value of its preimage, plus a separate all-zero hash: equal digests have equal
preimages, and nothing else is assumed of BLAKE3. */
module Types {

  datatype Option<+T> = None | Some(value: T)

  /** Micro-AGC per AGC. */
  const MICRO_AGC_PER_AGC: nat := 1_000_000

  /** One unit of a byte string that is hashed or used as a storage key: a plain byte, the 64-character
  hexadecimal text of a digest, or its 32 raw bytes. */
  datatype Symbol = Byte(b: int) | Hex(hex: Digest) | Raw(raw: Digest)

  /** A 32-byte public key. `Faucet(i, j)` is the key that iteration `i` derives for its `j`-th new
  wallet; the source computes it from a public string, so any caller can present it too. `SimKey(i)` is
  the id of simulated wallet `i`, which the simulator uses as a key. */
  datatype PublicKey = Ed25519(bytes: seq<int>) | Faucet(iteration: nat, idx: nat) | SimKey(simIdx: nat)

  datatype Digest =
    | ZeroHash
    | KeyHash(key: PublicKey)
    | SimHash(idx: nat)
    | PayloadHash(payload: Payload)
    | ByteHash(preimage: seq<Symbol>)

  type WalletId = Digest
  type OperatorId = Digest

  /** The serialised payloads that transaction ids are digests of. */
  datatype Payload =
    | MintPayload(to: WalletId, amount: nat, eurAmount: nat, operatorId: OperatorId,
                  nonce: nat, timestamp: int, category: Category)
    | TransferPayload(tFrom: WalletId, tTo: WalletId, tAmount: nat, tNonce: nat, tTimestamp: int,
                      tSender: PublicKey)
    | BurnPayload(bFrom: WalletId, bAmount: nat, bNonce: nat, bTimestamp: int, bSender: PublicKey)
    | CommitPayload(iterationId: nat, triggeredAtTick: nat, snapshotSupply: nat, snapshotWallets: nat,
                    snapshotGini: real, inflation: real, burnRate: real,
                    penalties: seq<(WalletId, nat)>, rewards: seq<(WalletId, nat)>, burned: nat,
                    faucetFromPenalty: nat, faucetFromMint: nat, newWallets: seq<WalletId>,
                    postSupply: nat)

  datatype Category = WalletSeed | Charge | SeedBootstrap

  datatype Wallet = Wallet(
    id: WalletId,
    pubkey: PublicKey,
    balance: nat,
    nonce: nat,
    createdAtTick: nat,
    createdAtIteration: nat,
    createdByOperator: OperatorId,
    txCount: nat,
    counterparties: set<WalletId>,
    lastActive: nat,
    activity: real)

  datatype IterationCommit = IterationCommit(
    txId: Digest,
    iterationId: nat,
    triggeredAtTick: nat,
    snapshotSupply: nat,
    snapshotWallets: nat,
    snapshotGini: real,
    inflation: real,
    burnRate: real,
    penalties: seq<(WalletId, nat)>,
    rewards: seq<(WalletId, nat)>,
    burned: nat,
    faucetFromPenalty: nat,
    faucetFromMint: nat,
    newWallets: seq<WalletId>,
    postSupply: nat)

  datatype Transaction =
    | Mint(mintId: Digest, mintTo: WalletId, mintAmount: nat, eurAmount: nat, operatorId: OperatorId,
           mintNonce: nat, mintTimestamp: int, operatorSig: string, category: Category)
    | Transfer(transferId: Digest, from: WalletId, to: WalletId, amount: nat, nonce: nat,
               timestamp: int, senderKey: PublicKey, userSig: string)
    | Burn(burnId: Digest, burnFrom: WalletId, burnAmount: nat, burnNonce: nat,
           burnTimestamp: int, burnSender: PublicKey, burnSig: string)
    | Commit(commit: IterationCommit)
  {
    function TxId(): Digest
    {
      match this
      case Mint(id, _, _, _, _, _, _, _, _) => id
      case Transfer(id, _, _, _, _, _, _, _) => id
      case Burn(id, _, _, _, _, _, _) => id
      case Commit(c) => c.txId
    }

    /** The wallets a transaction names, in the order they are indexed. */
    function WalletIds(): seq<WalletId>
    {
      match this
      case Mint(_, to, _, _, _, _, _, _, _) => [to]
      case Transfer(_, from, to, _, _, _, _, _) => [from, to]
      case Burn(_, from, _, _, _, _, _) => [from]
      case Commit(c) => Firsts(c.penalties) + Firsts(c.rewards) + c.newWallets
    }
  }

  function Firsts(s: seq<(WalletId, nat)>): (r: seq<WalletId>)
  {
    seq(|s|, i requires 0 <= i < |s| => s[i].0)
  }

  function Amounts(s: seq<(WalletId, nat)>): (r: seq<nat>)
  {
    seq(|s|, i requires 0 <= i < |s| => s[i].1)
  }

  /** Proof-of-History entry. */
  datatype PohEntry = PohEntry(
    tick: nat,
    prevHash: Digest,
    hash: Digest,
    txRoot: Digest,
    txIds: seq<Digest>,
    leader: seq<Symbol>)

  datatype SystemState = SystemState(
    tick: nat,
    iteration: nat,
    iterationStartedAt: nat,
    totalSupply: nat,
    nWallets: nat,
    nActive: nat,
    lastPohHash: Digest,
    previousSupply: nat,
    previousStartSupply: nat,
    lastInflation: real,
    lastGini: real,
    iterationLock: bool)

  const GENESIS: SystemState :=
    SystemState(0, 0, 0, 0, 0, 0, ZeroHash, 0, 0, 0.0, 0.0, false)

  datatype ResidualPolicy = BurnResidual | GenesisWallet

  datatype Parameters = Parameters(
    initialSeedAgc: nat,
    penaltyRate: real,
    targetPenaltyShare: real,
    burnBase: real,
    burnSensitivity: real,
    burnMin: real,
    burnMax: real,
    targetInflation: real,
    faucetShare: real,
    activeMin: real,
    activeMax: real,
    emaLambda: real,
    minTxCount: nat,
    minCounterparties: nat,
    inverseBalanceWeight: real,
    residualPolicy: ResidualPolicy,
    growthFactor: real,
    maxNewWallets: nat,
    requireCaptcha: bool,
    walletRateLimit: nat,
    transferRateLimit: nat,
    timestampDrift: int,
    devAuthBypass: bool)
}
