/**
 * The accounts page: a list of accounts and a log of transfers between
 * them, changed only by adding an account, deleting one and transferring
 * money. Every handler either leaves both lists as they were or performs
 * exactly one update.
 */
module Accounts {
  import opened Text
  import opened Calendar
  import opened Seqs
  import opened FinanceTypes

  /** No account is overdrawn. */
  predicate NoneOverdrawn(accounts: seq<Account>) {
    forall i :: 0 <= i < |accounts| ==> accounts[i].balance >= 0
  }

  /** The sum of the accounts' balances. */
  function TotalBalance(accounts: seq<Account>): int {
    if accounts == [] then 0 else accounts[0].balance + TotalBalance(accounts[1..])
  }

  /** With no account overdrawn the total is not negative either. */
  lemma {:induction false} TotalBalanceNonNegative(accounts: seq<Account>)
    requires NoneOverdrawn(accounts)
    ensures TotalBalance(accounts) >= 0
  {
    if accounts != [] {
      assert NoneOverdrawn(accounts[1..]) by {
        forall i | 0 <= i < |accounts| - 1 ensures accounts[1..][i].balance >= 0 {
          assert accounts[1..][i] == accounts[i + 1];
        }
      }
      TotalBalanceNonNegative(accounts[1..]);
    }
  }

  /** The total of two lists put together is the sum of their totals. */
  lemma {:induction false} TotalBalanceConcat(a: seq<Account>, b: seq<Account>)
    ensures TotalBalance(a + b) == TotalBalance(a) + TotalBalance(b)
  {
    if a == [] {
      assert a + b == b;
    } else {
      assert (a + b)[1..] == a[1..] + b;
      TotalBalanceConcat(a[1..], b);
    }
  }

  predicate HasId(accounts: seq<Account>, id: string) {
    exists i :: 0 <= i < |accounts| && accounts[i].id == id
  }

  /** No two accounts share an id. */
  predicate UniqueIds(accounts: seq<Account>) {
    forall i, j :: 0 <= i < j < |accounts| ==> accounts[i].id != accounts[j].id
  }

  /** The number of accounts whose id is `id`. */
  function CountId(accounts: seq<Account>, id: string): nat {
    if accounts == [] then 0
    else (if accounts[0].id == id then 1 else 0) + CountId(accounts[1..], id)
  }

  /** With unique ids an id names one account if it occurs and none otherwise. */
  lemma {:induction false} CountIdUnique(accounts: seq<Account>, id: string)
    requires UniqueIds(accounts)
    ensures CountId(accounts, id) == if HasId(accounts, id) then 1 else 0
  {
    if accounts != [] {
      var tail := accounts[1..];
      CountIdUnique(tail, id);
      if accounts[0].id == id {
        assert !HasId(tail, id);
      } else {
        assert HasId(accounts, id) ==> HasId(tail, id) by {
          if HasId(accounts, id) {
            var k :| 0 <= k < |accounts| && accounts[k].id == id;
            assert tail[k - 1].id == id;
          }
        }
        assert HasId(tail, id) ==> HasId(accounts, id) by {
          if HasId(tail, id) {
            var k :| 0 <= k < |tail| && tail[k].id == id;
            assert accounts[k + 1].id == id;
          }
        }
      }
    }
  }

  /** The first account whose id is `id`, or `None` when no account has it. */
  function FindAccount(accounts: seq<Account>, id: string): (r: Option<Account>)
    ensures r.Some? <==> HasId(accounts, id)
    ensures r.Some? ==> r.value in accounts && r.value.id == id
  {
    if accounts == [] then None
    else if accounts[0].id == id then Some(accounts[0])
    else
      var r := FindAccount(accounts[1..], id);
      assert HasId(accounts, id) ==> HasId(accounts[1..], id) by {
        if HasId(accounts, id) {
          var k :| 0 <= k < |accounts| && accounts[k].id == id;
          assert accounts[1..][k - 1].id == id;
        }
      }
      assert HasId(accounts[1..], id) ==> HasId(accounts, id) by {
        if HasId(accounts[1..], id) {
          var k :| 0 <= k < |accounts[1..]| && accounts[1..][k].id == id;
          assert accounts[k + 1].id == id;
        }
      }
      r
  }

  /** With unique ids the account found is the one account carrying the id. */
  lemma {:induction false} FindAccountUnique(accounts: seq<Account>, i: nat)
    requires UniqueIds(accounts) && i < |accounts|
    ensures FindAccount(accounts, accounts[i].id) == Some(accounts[i])
  {
    if i > 0 {
      FindAccountUnique(accounts[1..], i - 1);
    }
  }

  /** One account after a transfer of `amount` from `fromId` to `toId`. */
  function AdjustBalance(account: Account, fromId: string, toId: string, amount: int): (r: Account)
    ensures r.id == account.id && r.name == account.name && r.kind == account.kind && r.color == account.color
    ensures account.id != fromId && account.id != toId ==> r == account
  {
    if account.id == fromId then account.(balance := account.balance - amount)
    else if account.id == toId then account.(balance := account.balance + amount)
    else account
  }

  /**
   * The account list after a transfer: every account with the source id
   * loses `amount`, every other account with the destination id gains it,
   * and all other accounts, the length and the order stay the same.
   */
  function AdjustBalances(accounts: seq<Account>, fromId: string, toId: string, amount: int): (r: seq<Account>)
    ensures |r| == |accounts|
    ensures forall i :: 0 <= i < |r| ==>
      r[i].id == accounts[i].id && r[i].name == accounts[i].name &&
      r[i].kind == accounts[i].kind && r[i].color == accounts[i].color
    ensures forall i :: 0 <= i < |r| && accounts[i].id == fromId ==>
      r[i].balance == accounts[i].balance - amount
    ensures forall i :: 0 <= i < |r| && accounts[i].id != fromId && accounts[i].id == toId ==>
      r[i].balance == accounts[i].balance + amount
    ensures forall i :: 0 <= i < |r| && accounts[i].id != fromId && accounts[i].id != toId ==>
      r[i] == accounts[i]
  {
    if accounts == [] then []
    else [AdjustBalance(accounts[0], fromId, toId, amount)] + AdjustBalances(accounts[1..], fromId, toId, amount)
  }

  /**
   * A transfer changes the total by `amount` for every destination account
   * and by `-amount` for every source account.
   */
  lemma {:induction false} TotalAfterAdjust(accounts: seq<Account>, fromId: string, toId: string, amount: int)
    requires fromId != toId
    ensures TotalBalance(AdjustBalances(accounts, fromId, toId, amount))
         == TotalBalance(accounts) - amount * CountId(accounts, fromId) + amount * CountId(accounts, toId)
  {
    if accounts != [] {
      TotalAfterAdjust(accounts[1..], fromId, toId, amount);
      var cf, ct := CountId(accounts[1..], fromId), CountId(accounts[1..], toId);
      if accounts[0].id == fromId {
        assert amount * (1 + cf) == amount + amount * cf;
      } else if accounts[0].id == toId {
        assert amount * (1 + ct) == amount + amount * ct;
      }
    }
  }

  /** Why a transfer was refused, or that it went through. */
  datatype TransferOutcome =
    | Completed
    | MissingField      // an account or the amount was not filled in
    | SameAccount       // "Cannot transfer to the same account"
    | InsufficientBalance  // no such source account, or it holds less than the amount

  /**
   * The guards of the transfer handler, in the order it checks them. An
   * empty form field is `""` for an account and `None` for the amount.
   */
  function CheckTransfer(accounts: seq<Account>, fromId: string, toId: string, amount: Option<int>): (outcome: TransferOutcome)
    ensures outcome == MissingField <==> fromId == "" || toId == "" || amount.None?
    ensures outcome == SameAccount ==> fromId == toId
    ensures outcome == Completed ==> fromId != toId && amount.Some? && HasId(accounts, fromId)
  {
    if fromId == "" || toId == "" || amount.None? then MissingField
    else if fromId == toId then SameAccount
    else
      var source := FindAccount(accounts, fromId);
      if source.None? || source.value.balance < amount.value then InsufficientBalance
      else Completed
  }

  /**
   * A transfer goes through exactly when every field is filled in, the two
   * accounts differ and the source account exists with at least `amount`.
   */
  lemma CheckTransferCompleted(accounts: seq<Account>, fromId: string, toId: string, amount: Option<int>)
    requires UniqueIds(accounts)
    ensures CheckTransfer(accounts, fromId, toId, amount) == Completed <==>
      fromId != "" && toId != "" && amount.Some? && fromId != toId &&
      exists i :: 0 <= i < |accounts| && accounts[i].id == fromId && accounts[i].balance >= amount.value
  {
    if fromId != "" && toId != "" && amount.Some? && fromId != toId {
      if i :| 0 <= i < |accounts| && accounts[i].id == fromId {
        FindAccountUnique(accounts, i);
      }
    }
  }

  /**
   * Between two existing, distinct accounts a transfer moves money without
   * creating or destroying any: the total balance is unchanged.
   */
  lemma TransferConservesTotal(accounts: seq<Account>, fromId: string, toId: string, amount: int)
    requires UniqueIds(accounts) && fromId != toId
    requires HasId(accounts, fromId) && HasId(accounts, toId)
    ensures TotalBalance(AdjustBalances(accounts, fromId, toId, amount)) == TotalBalance(accounts)
  {
    TotalAfterAdjust(accounts, fromId, toId, amount);
    CountIdUnique(accounts, fromId);
    CountIdUnique(accounts, toId);
  }

  /**
   * The handler only looks up the source account: a transfer to an id that
   * names no account debits the source and credits nobody, so the total
   * falls by `amount`.
   */
  lemma TransferToMissingAccountLosesAmount(accounts: seq<Account>, fromId: string, toId: string, amount: int)
    requires UniqueIds(accounts) && fromId != toId
    requires HasId(accounts, fromId) && !HasId(accounts, toId)
    ensures TotalBalance(AdjustBalances(accounts, fromId, toId, amount)) == TotalBalance(accounts) - amount
  {
    TotalAfterAdjust(accounts, fromId, toId, amount);
    CountIdUnique(accounts, fromId);
    CountIdUnique(accounts, toId);
  }

  /**
   * The balance check is strict, so a transfer of the whole source balance
   * goes through and leaves the source at exactly zero; no accepted
   * transfer leaves the source below zero.
   */
  lemma TransferNeverOverdrawsSource(accounts: seq<Account>, i: nat, toId: string, amount: int)
    requires UniqueIds(accounts) && i < |accounts|
    requires CheckTransfer(accounts, accounts[i].id, toId, Some(amount)) == Completed
    ensures AdjustBalances(accounts, accounts[i].id, toId, amount)[i].balance >= 0
    ensures amount == accounts[i].balance ==>
      AdjustBalances(accounts, accounts[i].id, toId, amount)[i].balance == 0
  {
    FindAccountUnique(accounts, i);
  }

  /** A transfer of the whole balance of an existing source is accepted. */
  lemma WholeBalanceTransferAccepted(accounts: seq<Account>, i: nat, toId: string)
    requires UniqueIds(accounts) && i < |accounts|
    requires accounts[i].id != "" && toId != "" && toId != accounts[i].id
    ensures CheckTransfer(accounts, accounts[i].id, toId, Some(accounts[i].balance)) == Completed
  {
    FindAccountUnique(accounts, i);
  }

  /** The description a transfer record gets: the one typed, or "Transfer" when none was typed. */
  function TransferDescription(description: string): (d: string)
    ensures d != []
    ensures description != [] ==> d == description
    ensures description == [] ==> d == "Transfer"
  {
    if description == "" then "Transfer" else description
  }

  /** Keeping the accounts whose id is not `id` drops one account per occurrence of the id. */
  lemma {:induction false} RemoveAccountCount(accounts: seq<Account>, id: string)
    ensures |Filter(accounts, (a: Account) => a.id != id)| == |accounts| - CountId(accounts, id)
  {
    if accounts != [] {
      RemoveAccountCount(accounts[1..], id);
    }
  }

  /** With unique ids, removing an id drops exactly one account if it occurs and none otherwise. */
  lemma RemoveAccountLength(accounts: seq<Account>, id: string)
    requires UniqueIds(accounts)
    ensures |Filter(accounts, (a: Account) => a.id != id)| >= |accounts| - 1
    ensures HasId(accounts, id) <==> |Filter(accounts, (a: Account) => a.id != id)| == |accounts| - 1
  {
    RemoveAccountCount(accounts, id);
    CountIdUnique(accounts, id);
  }

  /** The accounts page: its account list and its transfer log, newest first. */
  class AccountsPage {
    var accounts: seq<Account>
    var transfers: seq<Transfer>

    ghost predicate Valid()
      reads this
    {
      UniqueIds(accounts)
    }

    /** The page as loaded from storage (or from the built-in default accounts). */
    constructor (savedAccounts: seq<Account>, savedTransfers: seq<Transfer>)
      requires UniqueIds(savedAccounts)
      ensures Valid()
      ensures accounts == savedAccounts && transfers == savedTransfers
    {
      accounts := savedAccounts;
      transfers := savedTransfers;
    }

    /** The total shown at the top of the page. */
    function Total(): int
      reads this
    {
      TotalBalance(accounts)
    }

    /**
     * `addAccount`: ignored when the name is blank or the balance field is
     * empty (`None`); otherwise one account with the fresh id is appended.
     */
    method AddAccount(name: string, balance: Option<int>, kind: AccountType, color: string, freshId: string)
      returns (added: bool)
      requires Valid() && !HasId(accounts, freshId)
      modifies this
      ensures Valid()
      ensures added <==> !IsBlank(name) && balance.Some?
      ensures added ==> accounts == old(accounts) + [Account(freshId, name, balance.value, kind, color)]
      ensures !added ==> accounts == old(accounts)
      ensures transfers == old(transfers)
    {
      if IsBlank(name) || balance.None? {
        return false;
      }
      var account := Account(freshId, name, balance.value, kind, color);
      accounts := accounts + [account];
      added := true;
    }

    /**
     * `deleteAccount`: refused while at most one account exists; otherwise
     * the accounts with that id are dropped and the rest keep their order,
     * so at least one account always remains.
     */
    method DeleteAccount(id: string) returns (deleted: bool)
      requires Valid()
      modifies this
      ensures Valid()
      ensures deleted <==> |old(accounts)| > 1
      ensures deleted ==> accounts == Filter(old(accounts), (a: Account) => a.id != id)
      ensures !deleted ==> accounts == old(accounts)
      ensures |old(accounts)| >= 1 ==> |accounts| >= 1
      ensures transfers == old(transfers)
    {
      if |accounts| <= 1 {
        return false;
      }
      RemoveAccountLength(accounts, id);
      var kept := Filter(accounts, (a: Account) => a.id != id);
      assert UniqueIds(kept) by {
        FilterOfUniqueIsUnique(accounts, id);
      }
      accounts := kept;
      deleted := true;
    }

    /**
     * `handleTransfer`: when `CheckTransfer` refuses, nothing changes;
     * otherwise the balances are adjusted and one record is put in front of
     * the log. The total is kept when the destination exists and falls by
     * the amount when it does not.
     */
    method HandleTransfer(fromId: string, toId: string, amount: Option<int>, description: string,
                          freshId: string, today: Date)
      returns (outcome: TransferOutcome)
      requires Valid()
      modifies this
      ensures Valid()
      ensures outcome == CheckTransfer(old(accounts), fromId, toId, amount)
      ensures outcome == Completed ==>
        accounts == AdjustBalances(old(accounts), fromId, toId, amount.value) &&
        transfers == [Transfer(freshId, amount.value, fromId, toId, TransferDescription(description), today)]
                     + old(transfers)
      ensures outcome != Completed ==> accounts == old(accounts) && transfers == old(transfers)
      ensures outcome == Completed && HasId(old(accounts), toId) ==> Total() == old(Total())
      ensures outcome == Completed && !HasId(old(accounts), toId) ==> Total() == old(Total()) - amount.value
    {
      if fromId == "" || toId == "" || amount.None? {
        return MissingField;
      }
      if fromId == toId {
        return SameAccount;
      }
      var value := amount.value;
      var source := FindAccount(accounts, fromId);
      if source.None? || source.value.balance < value {
        return InsufficientBalance;
      }
      var transfer := Transfer(freshId, value, fromId, toId, TransferDescription(description), today);
      var updated := AdjustBalances(accounts, fromId, toId, value);
      assert UniqueIds(updated);
      if HasId(accounts, toId) {
        TransferConservesTotal(accounts, fromId, toId, value);
      } else {
        TransferToMissingAccountLosesAmount(accounts, fromId, toId, value);
      }
      accounts := updated;
      transfers := [transfer] + transfers;
      outcome := Completed;
    }
  }

  /** Dropping accounts keeps the remaining ids unique. */
  lemma {:induction false} FilterOfUniqueIsUnique(accounts: seq<Account>, id: string)
    requires UniqueIds(accounts)
    ensures UniqueIds(Filter(accounts, (a: Account) => a.id != id))
  {
    if accounts != [] {
      var tail := accounts[1..];
      assert UniqueIds(tail);
      FilterOfUniqueIsUnique(tail, id);
      var rest := Filter(tail, (a: Account) => a.id != id);
      forall k | 0 <= k < |rest| ensures rest[k].id != accounts[0].id {
        assert rest[k] in tail;
      }
    }
  }
}
