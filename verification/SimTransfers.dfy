/** Simulated wallets and transfers between them. The random generator is an arbitrary oracle: every draw is an
arbitrary choice within the range the source draws from, so what is proved holds for every sequence of draws. */
module SimTransfers {
  import opened Arith
  import opened Sums
  import opened Types
  import opened Economy
  import opened WalletMaps
  import opened Rounding

  function SimWallet(idx: nat, balance: nat): Wallet
  {
    Wallet(SimHash(idx), SimKey(idx), balance, 0, 0, 0, ZeroHash, 0, {}, 0, 1.0)
  }

  /** Simulated wallets carry distinct indices below the next one to be handed out. */
  ghost predicate SimValid(ws: seq<Wallet>, next: nat)
  {
    && Distinct(Ids(ws))
    && forall i :: 0 <= i < |ws| ==>
         ws[i].id.SimHash? && ws[i].id.idx < next && ws[i].createdAtIteration == 0
  }

  /** Same wallets, other balances and activity. */
  ghost predicate SameWallets(a: seq<Wallet>, b: seq<Wallet>)
  {
    |a| == |b| && forall i :: 0 <= i < |a| ==> a[i].id == b[i].id && a[i].createdAtIteration == b[i].createdAtIteration
  }

  lemma SameWalletsValid(a: seq<Wallet>, b: seq<Wallet>, next: nat)
    requires SameWallets(a, b) && SimValid(a, next)
    ensures SimValid(b, next)
  {
    assert Ids(a) == Ids(b);
  }

  // ---------- Transfers ----------

  function Marked(w: Wallet, mark: Option<nat>): nat { if mark.Some? then mark.value else w.lastActive }

  /** A positive amount within the sender's balance goes to another wallet. Both count a transaction and each
  other; only synthetic activity marks the iteration. */
  ghost predicate IsTransfer(ws: seq<Wallet>, sender: nat, recipient: nat, amount: nat, mark: Option<nat>,
                             after: seq<Wallet>)
  {
    && sender < |ws| && recipient < |ws| && recipient != sender && 0 < amount <= ws[sender].balance
    && |after| == |ws|
    && var (s, r) := (ws[sender], ws[recipient]);
       && after[sender] == s.(balance := s.balance - amount, nonce := s.nonce + 1, txCount := s.txCount + 1,
                              counterparties := s.counterparties + {r.id}, lastActive := Marked(s, mark))
       && after[recipient] == r.(balance := r.balance + amount, txCount := r.txCount + 1,
                                 counterparties := r.counterparties + {s.id}, lastActive := Marked(r, mark))
       && forall i :: 0 <= i < |ws| && i != sender && i != recipient ==> after[i] == ws[i]
  }

  /** The amount is a fraction between 0.0001 and 0.95 of the balance, rounded down. */
  ghost predicate Drawn(balance: nat, amount: nat) { exists f :: FractionOf(balance, f, amount) }

  ghost predicate FractionOf(balance: nat, f: real, amount: nat)
  {
    0.0001 <= f <= 0.95 && Largest(amount, Times(balance as real, f), balance)
  }

  /** One attempted transfer: it moves a drawn amount, or it finds nothing to move. */
  ghost predicate Attempt(ws: seq<Wallet>, sender: nat, done: bool, mark: Option<nat>, after: seq<Wallet>)
  {
    && sender < |ws|
    && if done
       then exists r, a :: IsTransfer(ws, sender, r, a, mark, after) && Drawn(ws[sender].balance, a)
       else after == ws && (ws[sender].balance == 0 || Drawn(ws[sender].balance, 0))
  }

  /** Attempts one after the other: the wallets before and after each, who sent, and what came of it. */
  datatype Walk = Walk(path: seq<seq<Wallet>>, senders: seq<nat>, done: seq<bool>)

  ghost predicate IsWalk(w: Walk, mark: Option<nat>, ws: seq<Wallet>, after: seq<Wallet>)
  {
    && |w.path| == |w.senders| + 1 == |w.done| + 1 && w.path[0] == ws && w.path[|w.senders|] == after
    && forall i :: 0 <= i < |w.senders| ==> Attempt(w.path[i], w.senders[i], w.done[i], mark, w.path[i + 1])
  }

  function Count(done: seq<bool>): nat
  {
    if done == [] then 0 else Count(done[..|done| - 1]) + (if done[|done| - 1] then 1 else 0)
  }

  lemma WalkOn(w: Walk, mark: Option<nat>, ws: seq<Wallet>, mid: seq<Wallet>, sender: nat, done: bool,
               after: seq<Wallet>) returns (w': Walk)
    requires IsWalk(w, mark, ws, mid) && Attempt(mid, sender, done, mark, after)
    ensures IsWalk(w', mark, ws, after)
    ensures w'.senders == w.senders + [sender] && w'.done == w.done + [done] && w'.path == w.path + [after]
    ensures Count(w'.done) == Count(w.done) + (if done then 1 else 0)
  {
    hide Attempt;
    w' := Walk(w.path + [after], w.senders + [sender], w.done + [done]);
    assert w'.done[..|w.done|] == w.done;
    forall i | 0 <= i < |w'.senders|
      ensures Attempt(w'.path[i], w'.senders[i], w'.done[i], mark, w'.path[i + 1])
    {
      if i < |w.senders| {
        assert Attempt(w.path[i], w.senders[i], w.done[i], mark, w.path[i + 1]);
      }
    }
  }

  lemma SetBalance(ws: seq<Wallet>, i: nat, w: Wallet)
    requires i < |ws|
    ensures Supply(ws[i := w]) == Supply(ws) - ws[i].balance + w.balance
    ensures ws[i].balance <= Supply(ws)
  {
    SumAtLeast(Balances(ws), i);
    SumUpdate(Balances(ws), i, w.balance);
    assert Balances(ws[i := w]) == Balances(ws)[i := w.balance];
  }

  /** Transfers are zero-sum. */
  lemma TransferKeepsSupply(ws: seq<Wallet>, sender: nat, recipient: nat, amount: nat, mark: Option<nat>,
                            after: seq<Wallet>)
    requires IsTransfer(ws, sender, recipient, amount, mark, after)
    ensures Supply(after) == Supply(ws) && SameWallets(ws, after)
  {
    hide Supply;
    var mid := ws[sender := after[sender]];
    SetBalance(ws, sender, after[sender]);
    SetBalance(mid, recipient, after[recipient]);
    assert mid[recipient := after[recipient]] == after;
  }

  /** A recipient drawn anew, shifted by one when it hits the sender. */
  method DrawRecipient(sender: nat, n: nat) returns (recipient: nat)
    requires n >= 2 && sender < n
    ensures recipient < n && recipient != sender
  {
    var draw: nat :| draw < n;
    recipient := if draw == sender then (draw + 1) % n else draw;
  }

  method DrawAmount(balance: nat) returns (amount: nat)
    requires balance <= U64_MAX
    ensures Drawn(balance, amount) && amount <= balance
  {
    var sample: real := *;
    var fraction := Clamp(sample, 0.0001, 0.95);
    amount := Min(ToU64(Times(balance as real, fraction)), balance);
    FloorIsLargest(Times(balance as real, fraction), balance);
    assert FractionOf(balance, fraction, amount);
  }

  /** One random transfer; `mark` is the iteration recorded by synthetic activity. */
  method RandomTransfer(ws: seq<Wallet>, sender: nat, mark: Option<nat>) returns (wallets: seq<Wallet>, done: bool)
    requires |ws| >= 2 && sender < |ws| && Supply(ws) <= U64_MAX
    ensures Supply(wallets) == Supply(ws) && SameWallets(ws, wallets)
    ensures Attempt(ws, sender, done, mark, wallets)
  {
    hide Supply, Drawn;
    SetBalance(ws, sender, ws[sender]);
    var recipient := DrawRecipient(sender, |ws|);
    var amount := DrawAmount(ws[sender].balance);
    if amount == 0 {
      return ws, false;
    }
    var (s, r) := (ws[sender], ws[recipient]);
    TwoWithinSupply(ws, sender, recipient);
    wallets := ws[sender := s.(balance := s.balance - amount, nonce := s.nonce + 1, txCount := s.txCount + 1,
                               counterparties := s.counterparties + {r.id},
                               lastActive := if mark.Some? then mark.value else s.lastActive)];
    wallets := wallets[recipient := r.(balance := SatAdd(r.balance, amount), txCount := r.txCount + 1,
                                       counterparties := r.counterparties + {s.id},
                                       lastActive := if mark.Some? then mark.value else r.lastActive)];
    assert IsTransfer(ws, sender, recipient, amount, mark, wallets);
    TransferKeepsSupply(ws, sender, recipient, amount, mark, wallets);
    done := true;
  }

  lemma TwoWithinSupply(ws: seq<Wallet>, i: nat, j: nat)
    requires i < |ws| && j < |ws| && i != j
    ensures ws[i].balance + ws[j].balance <= Supply(ws)
  {
    hide Supply;
    var mid := ws[i := ws[i].(balance := 0)];
    SetBalance(ws, i, ws[i].(balance := 0));
    SetBalance(mid, j, mid[j]);
  }

  /** The wallet's attempts are those at positions `a` to `b`: as many as it drew, or fewer when its balance ran
  out. */
  ghost predicate Turn(w: Walk, sender: nat, drawn: nat, a: nat, b: nat)
  {
    && a <= b <= |w.senders| < |w.path|
    && (forall i :: 0 <= i < |w.senders| ==> (w.senders[i] == sender <==> a <= i < b))
    && (b - a == drawn || (b - a < drawn && sender < |w.path[b]| && w.path[b][sender].balance == 0))
  }

  ghost predicate TookTurn(w: Walk, sender: nat, drawn: nat) { exists a, b :: Turn(w, sender, drawn, a, b) }

  /** Wallets take their turns in order, each with the number of transfers it drew; nobody pays alone. */
  ghost predicate TookTurns(w: Walk, n: nat, draws: seq<nat>)
  {
    && |draws| == n
    && (forall i, j :: 0 <= i < j < |w.senders| ==> w.senders[i] <= w.senders[j])
    && if n < 2 then w.senders == [] else forall s :: 0 <= s < n ==> TookTurn(w, s, draws[s])
  }

  lemma TurnKept(w: Walk, w': Walk, s: nat, drawn: nat, sender: nat)
    requires TookTurn(w, s, drawn) && sender != s && |w.path| == |w.senders| + 1
    requires w'.senders == w.senders + [sender] && w.path <= w'.path && |w'.path| == |w'.senders| + 1
    ensures TookTurn(w', s, drawn)
  {
    var a, b :| Turn(w, s, drawn, a, b);
    assert Turn(w', s, drawn, a, b);
  }

  /** Step 1 of an iteration: every wallet in turn attempts the number of transfers it drew. */
  method SyntheticActivity(ws: seq<Wallet>, iteration: nat, draws: seq<nat>)
    returns (wallets: seq<Wallet>, nTxs: nat, ghost walk: Walk)
    requires Supply(ws) <= U64_MAX && |draws| == |ws|
    ensures Supply(wallets) == Supply(ws) && SameWallets(ws, wallets)
    ensures IsWalk(walk, Some(iteration), ws, wallets) && nTxs == Count(walk.done)
    ensures TookTurns(walk, |ws|, draws)
  {
    hide Supply, Attempt, TookTurn;
    wallets, nTxs, walk := ws, 0, Walk([ws], [], []);
    if |ws| >= 2 {
      for sender := 0 to |ws|
        invariant Supply(wallets) == Supply(ws) && SameWallets(ws, wallets)
        invariant IsWalk(walk, Some(iteration), ws, wallets) && nTxs == Count(walk.done)
        invariant InOrder(walk.senders, sender)
        invariant forall s :: 0 <= s < sender ==> TookTurn(walk, s, draws[s])
      {
        var more;
        wallets, more, walk := TakeTurn(ws, wallets, sender, draws[sender], iteration, walk, draws);
        nTxs := nTxs + more;
      }
    }
  }

  /** The inner loop: one wallet's turn, which ends early when its balance is gone. */
  method TakeTurn(ghost ws: seq<Wallet>, before: seq<Wallet>, sender: nat, drawn: nat, iteration: nat,
                  ghost walk: Walk, ghost draws: seq<nat>)
    returns (wallets: seq<Wallet>, nTxs: nat, ghost walk': Walk)
    requires |ws| >= 2 && sender < |ws| == |draws| && drawn == draws[sender]
    requires Supply(before) == Supply(ws) <= U64_MAX && SameWallets(ws, before)
    requires IsWalk(walk, Some(iteration), ws, before) && InOrder(walk.senders, sender)
    requires forall s :: 0 <= s < sender ==> TookTurn(walk, s, draws[s])
    ensures Supply(wallets) == Supply(ws) && SameWallets(ws, wallets)
    ensures IsWalk(walk', Some(iteration), ws, wallets) && InOrder(walk'.senders, sender + 1)
    ensures Count(walk'.done) == Count(walk.done) + nTxs
    ensures forall s :: 0 <= s <= sender ==> TookTurn(walk', s, draws[s])
  {
    hide Supply, Attempt, TookTurn, IsWalk;
    wallets, nTxs, walk' := before, 0, walk;
    ghost var a := |walk.senders|;
    var left := drawn;
    while left > 0 && wallets[sender].balance != 0
      invariant Supply(wallets) == Supply(ws) && SameWallets(ws, wallets)
      invariant IsWalk(walk', Some(iteration), ws, wallets) && InOrder(walk'.senders, sender + 1)
      invariant Count(walk'.done) == Count(walk.done) + nTxs
      invariant |walk'.senders| == a + (drawn - left) && 0 <= left <= drawn
      invariant forall i :: 0 <= i < |walk'.senders| ==> (walk'.senders[i] == sender <==> a <= i)
      invariant forall s :: 0 <= s < sender ==> TookTurn(walk', s, draws[s])
    {
      var done;
      ghost var (mid, w) := (wallets, walk');
      wallets, done := RandomTransfer(wallets, sender, Some(iteration));
      walk' := WalkOn(walk', Some(iteration), ws, mid, sender, done, wallets);
      WalkShape(w, Some(iteration), ws, mid);
      forall s | 0 <= s < sender ensures TookTurn(walk', s, draws[s]) {
        TurnKept(w, walk', s, draws[s], sender);
      }
      nTxs := if done then nTxs + 1 else nTxs;
      left := left - 1;
    }
    WalkShape(walk', Some(iteration), ws, wallets);
    TurnOver(walk', sender, drawn, a);
  }

  lemma WalkShape(w: Walk, mark: Option<nat>, ws: seq<Wallet>, after: seq<Wallet>)
    requires IsWalk(w, mark, ws, after)
    ensures |w.path| == |w.senders| + 1 == |w.done| + 1 && w.path[|w.senders|] == after
  {
  }

  lemma TurnOver(w: Walk, sender: nat, drawn: nat, a: nat)
    requires a <= |w.senders| && |w.path| == |w.senders| + 1
    requires forall i :: 0 <= i < |w.senders| ==> (w.senders[i] == sender <==> a <= i)
    requires var b := |w.senders|;
      b - a == drawn || (b - a < drawn && sender < |w.path[b]| && w.path[b][sender].balance == 0)
    ensures TookTurn(w, sender, drawn)
  {
    assert Turn(w, sender, drawn, a, |w.senders|);
  }

  /** Senders take their turns in order, none beyond `bound`. */
  ghost predicate InOrder(senders: seq<nat>, bound: nat)
  {
    && (forall i, j :: 0 <= i < j < |senders| ==> senders[i] <= senders[j])
    && forall i :: 0 <= i < |senders| ==> senders[i] < bound
  }
}
