/** The transaction-level flash-loan protocol
    (lending_market/flash_ixs.rs, lending_market/ix_utils.rs).

    Both handlers inspect the instruction list of the transaction that contains
    them.  A flash borrow looks ahead for its repay, a flash repay looks back at
    the instruction index in its own data. */
module FlashLoans {
  import opened Results

  type Key = nat
  type Byte = x: int | 0 <= x < 256

  const PROGRAM_ID: Key := 1
  const FLASH_BORROW_DISCRIMINATOR: seq<Byte> := [135, 231, 52, 167, 7, 52, 212, 193]
  const FLASH_REPAY_DISCRIMINATOR: seq<Byte> := [185, 117, 0, 203, 96, 245, 180, 186]
  const RESERVE_ACCOUNT: nat := 3
  const TRANSACTION_LEVEL_STACK_HEIGHT: nat := 1

  datatype Instruction = Instruction(programId: Key, accounts: seq<Key>, data: seq<Byte>)

  type Transaction = seq<Instruction>

  /** Where the running handler was called from. */
  datatype Call = Call(index: nat, stackHeight: nat)

  datatype RepayArgs = RepayArgs(amount: nat, borrowIndex: Byte)

  /** `u64::from_le_bytes` and its generalisation to any number of bytes. */
  function LittleEndian(bytes: seq<Byte>): nat {
    if bytes == [] then 0 else bytes[0] + 256 * LittleEndian(bytes[1..])
  }

  function LoadInstruction(tx: Transaction, i: nat): Result<Instruction> {
    if i < |tx| then Ok(tx[i]) else Err(InvalidAccountInput)
  }

  /** `is_flash_forbidden_cpi_call`. */
  function FlashForbidden(tx: Transaction, call: Call): Result<bool> {
    var current :- LoadInstruction(tx, call.index);
    Ok(current.programId != PROGRAM_ID || call.stackHeight > TRANSACTION_LEVEL_STACK_HEIGHT)
  }

  /** `ixn.data[..8]`, which panics on shorter data. */
  function Discriminator(ix: Instruction): Result<seq<Byte>> {
    if |ix.data| < 8 then Err(Panic) else Ok(ix.data[..8])
  }

  /** `try_from_slice` on the nine bytes of arguments, none missing and none left over. */
  function DecodeRepay(ix: Instruction): Result<RepayArgs> {
    if |ix.data| != 17 then Err(MalformedInstruction)
    else Ok(RepayArgs(LittleEndian(ix.data[8..16]), ix.data[16]))
  }

  function DecodeBorrowAmount(ix: Instruction): Result<nat> {
    if |ix.data| < 16 then Err(Panic) else Ok(LittleEndian(ix.data[8..16]))
  }

  /** `flash_borrow_check_matching_repay`. */
  function CheckMatchingRepay(amount: nat, borrow: Instruction, repay: Instruction, borrowIndex: nat): Result<()> {
    var args :- DecodeRepay(repay);
    if args.amount != amount then Err(InvalidFlashRepay)
    else if args.borrowIndex != borrowIndex then Err(InvalidFlashRepay)
    else if |repay.accounts| != |borrow.accounts| then Err(InvalidFlashRepay)
    else if repay.accounts != borrow.accounts then Err(InvalidFlashRepay)
    else Ok(())
  }

  /** One instruction behind the borrow: does it settle it? */
  function InspectLater(amount: nat, borrow: Instruction, borrowIndex: nat, ix: Instruction, found: bool): Result<bool> {
    if ix.programId != PROGRAM_ID then Ok(found)
    else
      var d :- Discriminator(ix);
      if d == FLASH_BORROW_DISCRIMINATOR then Err(MultipleFlashBorrows)
      else if d == FLASH_REPAY_DISCRIMINATOR then
        if found then Err(MultipleFlashBorrows)
        else
          var _ :- CheckMatchingRepay(amount, borrow, ix, borrowIndex);
          Ok(true)
      else Ok(found)
  }

  /** The scan over the instructions up to (not including) `end`. */
  function Scan(tx: Transaction, amount: nat, borrowIndex: nat, end: nat): Result<bool>
    requires borrowIndex < end <= |tx|
  {
    if end == borrowIndex + 1 then Ok(false)
    else
      var found :- Scan(tx, amount, borrowIndex, end - 1);
      InspectLater(amount, tx[borrowIndex], borrowIndex, tx[end - 1], found)
  }

  function FlashBorrowOutcome(tx: Transaction, call: Call, amount: nat): Result<()> {
    var forbidden :- FlashForbidden(tx, call);
    if forbidden then Err(FlashBorrowCpi)
    else
      var found :- Scan(tx, amount, call.index, |tx|);
      if found then Ok(()) else Err(NoFlashRepayFound)
  }

  /** The cursor over the instructions of a transaction. */
  class IxIterator {
    const tx: Transaction
    var current: nat

    constructor (start: nat, tx: Transaction)
      ensures this.tx == tx && current == start
    {
      this.current, this.tx := start, tx;
    }

    method Next() returns (ix: Option<Instruction>)
      modifies this
      ensures old(current) < |tx| ==> ix == Some(tx[old(current)]) && current == old(current) + 1
      ensures old(current) >= |tx| ==> ix == None && current == old(current)
    {
      var loaded := LoadInstruction(tx, current);
      if loaded.Err? {
        return None;
      }
      current := current + 1;
      return Some(loaded.value);
    }
  }

  /** `flash_borrow_checks_internal`. */
  method FlashBorrowChecks(tx: Transaction, call: Call, amount: nat) returns (r: Result<()>)
    ensures r == FlashBorrowOutcome(tx, call, amount)
  {
    var forbidden :- FlashForbidden(tx, call);
    if forbidden {
      return Err(FlashBorrowCpi);
    }
    var borrow := tx[call.index];
    var found := false;
    var rest := new IxIterator(call.index + 1, tx);
    while true
      invariant call.index < rest.current <= |tx|
      invariant Scan(tx, amount, call.index, rest.current) == Ok(found)
      decreases |tx| - rest.current
    {
      ghost var at := rest.current;
      var ix := rest.Next();
      if ix.None? {
        break;
      }
      var seen := InspectLater(amount, borrow, call.index, ix.value, found);
      if seen.Err? {
        ScanFailsForGood(tx, amount, call.index, at + 1, |tx|);
        return Err(seen.error);
      }
      found := seen.value;
    }
    if !found {
      return Err(NoFlashRepayFound);
    }
    return Ok(());
  }

  lemma {:induction false} ScanFailsForGood(tx: Transaction, amount: nat, borrowIndex: nat, i: nat, j: nat)
    requires borrowIndex < i <= j <= |tx| && Scan(tx, amount, borrowIndex, i).Err?
    ensures Scan(tx, amount, borrowIndex, j) == Scan(tx, amount, borrowIndex, i)
    decreases j
  {
    if i == j {
    } else {
      ScanFailsForGood(tx, amount, borrowIndex, i, j - 1);
    }
  }

  /** `flash_repay_checks`: the repay looks back at the instruction it names. */
  function FlashRepayChecks(tx: Transaction, call: Call, borrowIndex: nat, amount: nat): Result<()> {
    var forbidden :- FlashForbidden(tx, call);
    if forbidden then Err(FlashRepayCpi)
    else if borrowIndex > call.index then Err(InvalidFlashRepay)
    else
      var ix :- LoadInstruction(tx, borrowIndex);
      if ix.programId != PROGRAM_ID then Err(InvalidFlashRepay)
      else
        var d :- Discriminator(ix);
        if d != FLASH_BORROW_DISCRIMINATOR then Err(InvalidFlashRepay)
        else
          var borrowed :- DecodeBorrowAmount(ix);
          if |ix.accounts| <= RESERVE_ACCOUNT || |tx[call.index].accounts| <= RESERVE_ACCOUNT then Err(Panic)
          else if ix.accounts[RESERVE_ACCOUNT] != tx[call.index].accounts[RESERVE_ACCOUNT] then Err(InvalidFlashRepay)
          else if amount != borrowed then Err(InvalidFlashRepay)
          else Ok(())
  }

  // ---- whole transactions -------------------------------------------------

  predicate IsFlash(ix: Instruction, discriminator: seq<Byte>) {
    ix.programId == PROGRAM_ID && |ix.data| >= 8 && ix.data[..8] == discriminator
  }

  predicate IsFlashBorrow(ix: Instruction) {
    IsFlash(ix, FLASH_BORROW_DISCRIMINATOR)
  }

  predicate IsFlashRepay(ix: Instruction) {
    IsFlash(ix, FLASH_REPAY_DISCRIMINATOR)
  }

  /** Top-level instruction `i` runs its flash checks on the arguments in its data. */
  function Execute(tx: Transaction, i: nat): Result<()>
    requires i < |tx|
  {
    if IsFlashBorrow(tx[i]) then
      var amount :- DecodeBorrowAmount(tx[i]);
      FlashBorrowOutcome(tx, Call(i, TRANSACTION_LEVEL_STACK_HEIGHT), amount)
    else if IsFlashRepay(tx[i]) then
      if |tx[i].data| < 17 then Err(MalformedInstruction)
      else FlashRepayChecks(tx, Call(i, TRANSACTION_LEVEL_STACK_HEIGHT), tx[i].data[16], LittleEndian(tx[i].data[8..16]))
    else Ok(())
  }

  ghost predicate AllFlashChecksPass(tx: Transaction) {
    forall i :: 0 <= i < |tx| ==> Execute(tx, i).Ok?
  }

  /** Instructions `b` and `r` are the only flash instructions, in this order, and
      the repay gives back the borrowed amount through the same accounts. */
  ghost predicate Paired(tx: Transaction, b: nat, r: nat) {
    && b < r < |tx|
    && (forall i :: 0 <= i < |tx| ==> (IsFlashBorrow(tx[i]) <==> i == b))
    && (forall i :: 0 <= i < |tx| ==> (IsFlashRepay(tx[i]) <==> i == r))
    && |tx[b].data| >= 16
    && DecodeRepay(tx[r]).Ok?
    && DecodeRepay(tx[r]).value.amount == LittleEndian(tx[b].data[8..16])
    && DecodeRepay(tx[r]).value.borrowIndex == b
    && tx[r].accounts == tx[b].accounts
    && |tx[b].accounts| > RESERVE_ACCOUNT
  }

  ghost predicate NoFlash(tx: Transaction) {
    forall i :: 0 <= i < |tx| ==> !IsFlashBorrow(tx[i]) && !IsFlashRepay(tx[i])
  }

  /** What a successful scan has seen: no further borrow, and a repay exactly when it says so. */
  lemma {:induction false} ScanResult(tx: Transaction, amount: nat, b: nat, end: nat) returns (r: nat)
    requires b < end <= |tx| && Scan(tx, amount, b, end).Ok?
    ensures forall i :: b < i < end ==> !IsFlashBorrow(tx[i])
    ensures !Scan(tx, amount, b, end).value ==> forall i :: b < i < end ==> !IsFlashRepay(tx[i])
    ensures Scan(tx, amount, b, end).value ==>
      && b < r < end
      && CheckMatchingRepay(amount, tx[b], tx[r], b).Ok?
      && forall i :: b < i < end ==> (IsFlashRepay(tx[i]) <==> i == r)
    decreases end
  {
    r := 0;
    if end == b + 1 {
    } else {
      r := ScanResult(tx, amount, b, end - 1);
      if IsFlashRepay(tx[end - 1]) {
        r := end - 1;
      }
    }
  }

  /** A repay that passes names an earlier flash borrow. */
  lemma RepayPointsBack(tx: Transaction, r: nat)
    requires r < |tx| && IsFlashRepay(tx[r]) && Execute(tx, r).Ok?
    ensures |tx[r].data| >= 17 && tx[r].data[16] < r && IsFlashBorrow(tx[tx[r].data[16]])
    ensures |tx[tx[r].data[16]].accounts| > RESERVE_ACCOUNT
  {
    assert FLASH_BORROW_DISCRIMINATOR[0] != FLASH_REPAY_DISCRIMINATOR[0];
  }

  /** If all flash checks of a transaction pass, it holds no flash instruction or
      exactly one borrow followed by exactly one matching repay. */
  lemma ChecksImplyPairing(tx: Transaction)
    requires AllFlashChecksPass(tx)
    ensures NoFlash(tx) || exists b, r :: Paired(tx, b, r)
  {
    assert FLASH_BORROW_DISCRIMINATOR[0] != FLASH_REPAY_DISCRIMINATOR[0];
    if !NoFlash(tx) {
      var f :| 0 <= f < |tx| && (IsFlashBorrow(tx[f]) || IsFlashRepay(tx[f]));
      assert Execute(tx, f).Ok?;
      var b: nat := f;
      if IsFlashRepay(tx[f]) {
        RepayPointsBack(tx, f);
        b := tx[f].data[16];
      }
      assert Execute(tx, b).Ok?;
      var r := BorrowIsOnlyOne(tx, b);
      assert Paired(tx, b, r);
    }
  }

  lemma BorrowIsOnlyOne(tx: Transaction, b: nat) returns (r: nat)
    requires AllFlashChecksPass(tx) && b < |tx| && IsFlashBorrow(tx[b])
    ensures Paired(tx, b, r)
  {
    assert FLASH_BORROW_DISCRIMINATOR[0] != FLASH_REPAY_DISCRIMINATOR[0];
    assert Execute(tx, b).Ok?;
    var amount := DecodeBorrowAmount(tx[b]).value;
    r := ScanResult(tx, amount, b, |tx|);
    forall i | 0 <= i < |tx| ensures IsFlashBorrow(tx[i]) <==> i == b {
      if IsFlashBorrow(tx[i]) && i < b {
        assert Execute(tx, i).Ok?;
        var _ := ScanResult(tx, DecodeBorrowAmount(tx[i]).value, i, |tx|);
      }
    }
    forall i | 0 <= i < |tx| ensures IsFlashRepay(tx[i]) <==> i == r {
      if IsFlashRepay(tx[i]) && i <= b {
        assert Execute(tx, i).Ok?;
        RepayPointsBack(tx, i);
      }
    }
    assert Execute(tx, r).Ok?;
    RepayPointsBack(tx, r);
  }

  lemma {:induction false} ScanOfPair(tx: Transaction, b: nat, r: nat, end: nat)
    requires Paired(tx, b, r) && b < end <= |tx|
    requires forall i :: 0 <= i < |tx| && tx[i].programId == PROGRAM_ID ==> |tx[i].data| >= 8
    ensures Scan(tx, LittleEndian(tx[b].data[8..16]), b, end) == Ok(r < end)
    decreases end
  {
    if end == b + 1 {
    } else {
      ScanOfPair(tx, b, r, end - 1);
      var ix := tx[end - 1];
      assert IsFlashRepay(ix) <==> end - 1 == r;
      assert !IsFlashBorrow(ix);
    }
  }

  /** Conversely a properly paired transaction passes all checks, if every
      instruction of the program carries its discriminator. */
  lemma PairingImpliesChecks(tx: Transaction, b: nat, r: nat)
    requires Paired(tx, b, r)
    requires forall i :: 0 <= i < |tx| && tx[i].programId == PROGRAM_ID ==> |tx[i].data| >= 8
    ensures AllFlashChecksPass(tx)
  {
    assert FLASH_BORROW_DISCRIMINATOR[0] != FLASH_REPAY_DISCRIMINATOR[0];
    ScanOfPair(tx, b, r, |tx|);
    forall i | 0 <= i < |tx| ensures Execute(tx, i).Ok? {
      assert IsFlashBorrow(tx[i]) <==> i == b;
      assert IsFlashRepay(tx[i]) <==> i == r;
    }
  }

  /** Called by another program, or from inside another instruction, neither handler passes. */
  lemma NoFlashThroughCpi(tx: Transaction, call: Call, borrowIndex: nat, amount: nat)
    requires call.index < |tx|
    requires tx[call.index].programId != PROGRAM_ID || call.stackHeight > TRANSACTION_LEVEL_STACK_HEIGHT
    ensures FlashBorrowOutcome(tx, call, amount) == Err(FlashBorrowCpi)
    ensures FlashRepayChecks(tx, call, borrowIndex, amount) == Err(FlashRepayCpi)
  {
  }
}
