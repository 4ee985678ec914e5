/**
 * What the Telnet server's dispatcher guarantees: which check fires first,
 * that a rejected command changes nothing, that balances stay non-negative
 * and transfers conserve money, that account numbers are fresh and the CPF
 * index stays in bijection with the accounts, and how LOGIN interacts with
 * the live-session set.
 */
module TelnetProperties {
  import opened Common
  import opened Text
  import opened Ledger
  import opened TelnetBank

  // ---------------------------------------------------------------------
  // CRIAR
  // ---------------------------------------------------------------------

  /** Everything CRIAR demands before it creates an account. */
  predicate CreateAccepted(b: Bank, fields: seq<string>)
  {
    && |fields| == 4
    && ValidCpf(fields[2]) && ValidText(fields[1]) && ValidText(fields[3])
    && fields[2] !in b.cpfIndex
  }

  /**
   * CRIAR creates an account exactly when the command has four fields, the
   * CPF is three digits, name and password are non-empty and free of `|`,
   * and the CPF is not yet registered. The new account is numbered after
   * the table size, starts at zero and is entered in the CPF index; it
   * overwrites nothing, and all other accounts stay as they were. Any
   * rejection leaves table and index unchanged.
   */
  lemma CreateOutcome(b: Bank, fields: seq<string>)
    requires IdsIssued(b)
    ensures var r := Create(b, fields);
      && r.transition == NoChange && r.notice == None
      && (r.reply.Created? <==> CreateAccepted(b, fields))
      && (!CreateAccepted(b, fields) ==> r.bank == b)
      && (CreateAccepted(b, fields) ==>
            var id := AccountId(|b.accounts|);
            && id !in b.accounts
            && r.reply == Created(id, fields[1])
            && r.bank.accounts.Keys == b.accounts.Keys + {id}
            && |r.bank.accounts| == |b.accounts| + 1
            && r.bank.accounts[id] == Account(fields[1], fields[2], fields[3], 0.0)
            && (forall k :: k in b.accounts ==> r.bank.accounts[k] == b.accounts[k])
            && r.bank.cpfIndex == b.cpfIndex[fields[2] := id]
            && Total(r.bank.accounts) == Total(b.accounts))
  {
    CreateDecision(b, fields);
    if CreateAccepted(b, fields) {
      var id, a := AccountId(|b.accounts|), Account(fields[1], fields[2], fields[3], 0.0);
      CreateResult(b, fields);
      FreshId(|b.accounts|);
      AddedAccount(b.accounts, id, a);
    }
  }

  /** CRIAR creates exactly when every check passes; otherwise it changes nothing. */
  lemma CreateDecision(b: Bank, fields: seq<string>)
    ensures var r := Create(b, fields);
      && r.transition == NoChange && r.notice == None
      && (r.reply.Created? <==> CreateAccepted(b, fields))
      && (!CreateAccepted(b, fields) ==> r.bank == b)
  {
  }

  /** What an accepted CRIAR produces. */
  lemma CreateResult(b: Bank, fields: seq<string>)
    requires CreateAccepted(b, fields)
    ensures var id := AccountId(|b.accounts|);
      Create(b, fields)
      == Outcome(Bank(b.accounts[id := Account(fields[1], fields[2], fields[3], 0.0)],
                      b.cpfIndex[fields[2] := id]),
                 Created(id, fields[1]), NoChange, None)
  {
  }

  /** Entering a record under a new key adds one key, keeps the others and adds its balance to the total. */
  lemma AddedAccount(accounts: map<string, Account>, id: string, a: Account)
    requires id !in accounts
    ensures var m := accounts[id := a];
      && m.Keys == accounts.Keys + {id}
      && |m| == |accounts| + 1
      && (forall k :: k in accounts ==> m[k] == accounts[k])
      && Total(m) == Total(accounts) + a.balance
  {
    SumProjectInsert(accounts, BalanceOf, id, a);
    assert |accounts[id := a]| == |accounts| + 1;
  }

  /** The checks run in the order of the source: field count, CPF, name, password, duplicate CPF. */
  lemma CreateCheckOrder(b: Bank, fields: seq<string>)
    ensures |fields| != 4 ==> Create(b, fields).reply == CreateUsage
    ensures |fields| == 4 && !ValidCpf(fields[2]) ==> Create(b, fields).reply == InvalidCpf
    ensures |fields| == 4 && ValidCpf(fields[2]) && !ValidText(fields[1]) ==>
              Create(b, fields).reply == InvalidName
    ensures |fields| == 4 && ValidCpf(fields[2]) && ValidText(fields[1]) && !ValidText(fields[3]) ==>
              Create(b, fields).reply == InvalidPassword
    ensures (|fields| == 4 && ValidCpf(fields[2]) && ValidText(fields[1]) && ValidText(fields[3])
             && fields[2] in b.cpfIndex) ==> Create(b, fields).reply == DuplicateCpf
  {
  }

  /**
   * Fields come from splitting on `|`, so they never contain it: the two
   * "contains '|'" rejections of CRIAR (lines 85 and 87) can only fire for
   * an empty name or password.
   */
  lemma SeparatorChecksOnlyCatchEmpty(b: Bank, command: string)
    requires |Fields(command)| == 4
    ensures Create(b, Fields(command)).reply == InvalidName ==> Fields(command)[1] == []
    ensures Create(b, Fields(command)).reply == InvalidPassword ==> Fields(command)[3] == []
  {
    var fields := Fields(command);
    assert SEP !in fields[1] && SEP !in fields[3];
  }

  lemma CreatePreservesInvariant(b: Bank, fields: seq<string>)
    requires Invariant(b)
    ensures Invariant(Create(b, fields).bank)
  {
    if CreateAccepted(b, fields) {
      var n, cpf := |b.accounts|, fields[2];
      var id, a := AccountId(n), Account(fields[1], cpf, fields[3], 0.0);
      FreshId(n);
      AddAccountPreservesInvariant(b, id, a);
      assert Create(b, fields).bank == Bank(b.accounts[id := a], b.cpfIndex[cpf := id]);
    }
  }

  /** Adding a well-formed record under the next number and a new CPF keeps the invariant. */
  lemma AddAccountPreservesInvariant(b: Bank, id: string, a: Account)
    requires Invariant(b)
    requires id == AccountId(|b.accounts|) && id !in b.accounts
    requires WellFormed(a) && a.cpf !in b.cpfIndex
    ensures Invariant(Bank(b.accounts[id := a], b.cpfIndex[a.cpf := id]))
  {
    AddAccountIdsIssued(b, id, a);
    AddAccountIndexSound(b, id, a);
    AddAccountIndexComplete(b, id, a);
  }

  lemma AddAccountIdsIssued(b: Bank, id: string, a: Account)
    requires IdsIssued(b)
    requires id == AccountId(|b.accounts|)
    ensures IdsIssued(Bank(b.accounts[id := a], b.cpfIndex[a.cpf := id]))
  {
    FreshId(|b.accounts|);
    var accounts := b.accounts[id := a];
    assert accounts.Keys == b.accounts.Keys + {id};
    assert |accounts| == |b.accounts| + 1;
  }

  lemma AddAccountIndexSound(b: Bank, id: string, a: Account)
    requires IndexSound(b) && id !in b.accounts
    ensures IndexSound(Bank(b.accounts[id := a], b.cpfIndex[a.cpf := id]))
  {
    var b' := Bank(b.accounts[id := a], b.cpfIndex[a.cpf := id]);
    forall c | c in b'.cpfIndex
      ensures b'.cpfIndex[c] in b'.accounts && b'.accounts[b'.cpfIndex[c]].cpf == c
    {
      if c != a.cpf {
        assert c in b.cpfIndex && b.cpfIndex[c] in b.accounts;
      }
    }
  }

  lemma AddAccountIndexComplete(b: Bank, id: string, a: Account)
    requires IndexComplete(b) && a.cpf !in b.cpfIndex
    ensures IndexComplete(Bank(b.accounts[id := a], b.cpfIndex[a.cpf := id]))
  {
    var b' := Bank(b.accounts[id := a], b.cpfIndex[a.cpf := id]);
    forall k | k in b'.accounts
      ensures b'.accounts[k].cpf in b'.cpfIndex && b'.cpfIndex[b'.accounts[k].cpf] == k
    {
      if k != id {
        assert b.accounts[k].cpf in b.cpfIndex;
      }
    }
  }

  // ---------------------------------------------------------------------
  // LOGIN
  // ---------------------------------------------------------------------

  /** LOGIN never touches the table or the index, and never notifies anybody. */
  lemma LoginReadsOnly(b: Bank, active: set<string>, fields: seq<string>)
    requires IndexClosed(b)
    ensures Login(b, active, fields).bank == b && Login(b, active, fields).notice == None
  {
  }

  /**
   * An unknown all-digit CPF and a known CPF with the wrong password give
   * the very same answer: the caller cannot tell them apart.
   */
  lemma LoginFailuresLookAlike(b: Bank, active: set<string>, unknown: seq<string>, wrong: seq<string>)
    requires IndexClosed(b)
    requires |unknown| == 3 && IsDigits(unknown[1]) && unknown[1] !in b.cpfIndex
    requires |wrong| == 3 && IsDigits(wrong[1]) && wrong[1] in b.cpfIndex
    requires b.cpfIndex[wrong[1]] !in active
    requires b.accounts[b.cpfIndex[wrong[1]]].password != wrong[2]
    ensures Login(b, active, unknown) == Login(b, active, wrong) == Reject(b, BadCredentials)
  {
  }

  /** An account with a live session cannot be logged into, whatever the password. */
  lemma LoginActiveRejected(b: Bank, active: set<string>, fields: seq<string>)
    requires IndexClosed(b)
    requires |fields| == 3 && IsDigits(fields[1]) && fields[1] in b.cpfIndex
    requires b.cpfIndex[fields[1]] in active
    ensures Login(b, active, fields) == Reject(b, AlreadyActive)
  {
  }

  /**
   * Because the live-session check runs before the password check, a wrong
   * password for a logged-in account answers differently from an unknown
   * CPF: the reply tells that the CPF is registered.
   */
  lemma LoginRevealsActiveCpf(b: Bank, active: set<string>, unknown: seq<string>, guess: seq<string>)
    requires IndexClosed(b)
    requires |unknown| == 3 && IsDigits(unknown[1]) && unknown[1] !in b.cpfIndex
    requires |guess| == 3 && IsDigits(guess[1]) && guess[1] in b.cpfIndex
    requires b.cpfIndex[guess[1]] in active
    ensures Login(b, active, unknown).reply != Login(b, active, guess).reply
  {
  }

  /**
   * LOGIN opens a session exactly when the command has three fields, the
   * CPF is all digits and registered, its account has no live session and
   * the password matches; the transition then names that account and its
   * holder, and the reply carries both.
   */
  lemma LoginOutcome(b: Bank, active: set<string>, fields: seq<string>)
    requires IndexClosed(b)
    ensures var r := Login(b, active, fields);
      && (r.transition.LoggedIn? <==>
            |fields| == 3 && IsDigits(fields[1]) && fields[1] in b.cpfIndex
            && b.cpfIndex[fields[1]] !in active
            && b.accounts[b.cpfIndex[fields[1]]].password == fields[2])
      && (r.transition.LoggedIn? ==>
            var id := b.cpfIndex[fields[1]];
            r.transition == LoggedIn(id, b.accounts[id].name)
            && r.reply == Welcome(b.accounts[id].name, id))
      && (!r.transition.LoggedIn? ==> r.transition == NoChange)
  {
  }

  /**
   * The login reply `[IFBANK]|nome|num` is meant to be split on `|` by the
   * client; when the name has no `|` (which CRIAR ensures) and the number
   * has none (it is all digits), splitting gives back exactly the tag, the
   * name and the number.
   */
  lemma WelcomeSplits(name: string, id: string, fmt: Amount -> string)
    requires SEP !in name && IsDigits(id)
    ensures Split(Message(Welcome(name, id), fmt), SEP) == ["[IFBANK]", name, id]
  {
    var parts := ["[IFBANK]", name, id];
    assert Join(parts, SEP) == Message(Welcome(name, id), fmt) by {
      assert parts[1..][1..] == [id];
      assert Join(parts[1..], SEP) == name + [SEP] + id;
    }
    forall i | 0 <= i < |parts| ensures SEP !in parts[i] {
      if i == 0 { assert parts[0] == "[IFBANK]"; }
    }
    SplitJoin(parts, SEP);
  }

  // ---------------------------------------------------------------------
  // The logged-in operations
  // ---------------------------------------------------------------------

  /** Without a session every command other than CRIAR and LOGIN is refused and changes nothing. */
  lemma NotLoggedInRefused(b: Bank, active: set<string>, command: string, parse: AmountParser)
    requires IndexClosed(b)
    requires !Keyword(Fields(command)[0]).Criar? && !Keyword(Fields(command)[0]).LoginOp?
    ensures Step(b, active, command, None, parse) == Reject(b, NotLoggedIn)
  {
  }

  /** SALDO reports the caller's balance and changes nothing. */
  lemma BalanceReadsOnly(b: Bank, id: string)
    ensures Balance(b, id).bank == b && Balance(b, id).transition == NoChange
    ensures id in b.accounts ==> Balance(b, id).reply == BalanceIs(b.accounts[id].balance)
  {
  }

  /**
   * DEPOSITAR succeeds exactly when the amount parses and is positive (and
   * the caller's account exists); it then raises the caller's balance by
   * exactly that amount, leaves every other account and the index alone and
   * adds the amount to the total. Otherwise nothing changes.
   */
  lemma DepositOutcome(b: Bank, id: string, fields: seq<string>, parse: AmountParser)
    ensures var r := Deposit(b, id, fields, parse);
      && r.transition == NoChange && r.notice == None
      && (r.reply.Deposited? <==>
            |fields| >= 2 && parse(fields[1]).Some? && parse(fields[1]).value > 0.0 && id in b.accounts)
      && (!r.reply.Deposited? ==> r.bank == b)
      && (r.reply.Deposited? ==>
            var amount := parse(fields[1]).value;
            && r.bank.cpfIndex == b.cpfIndex
            && r.bank.accounts.Keys == b.accounts.Keys
            && r.bank.accounts[id].balance == b.accounts[id].balance + amount
            && r.bank.accounts[id].(balance := 0.0) == b.accounts[id].(balance := 0.0)
            && (forall k :: k in b.accounts && k != id ==> r.bank.accounts[k] == b.accounts[k])
            && r.reply == Deposited(amount, r.bank.accounts[id].balance)
            && Total(r.bank.accounts) == Total(b.accounts) + amount)
  {
    var r := Deposit(b, id, fields, parse);
    if r.reply.Deposited? {
      SumProjectUpdate(b.accounts, BalanceOf, id, r.bank.accounts[id]);
    }
  }

  /** Everything SACAR demands before it debits the caller. */
  predicate WithdrawAccepted(b: Bank, id: string, fields: seq<string>, parse: AmountParser)
  {
    && |fields| >= 3 && parse(fields[1]).Some? && id in b.accounts
    && b.accounts[id].password == fields[2]
    && 0.0 < parse(fields[1]).value <= b.accounts[id].balance
  }

  /**
   * SACAR on the caller's account rejects, changing nothing, in this order:
   * fewer than three fields, an amount that does not parse, a missing
   * account, a wrong password, an amount that is not positive, an amount
   * above the balance. It succeeds exactly when none of these applies; the
   * balance then drops by exactly the amount and stays non-negative, no
   * other account changes, and the total drops by the amount.
   */
  lemma WithdrawOutcome(b: Bank, id: string, fields: seq<string>, parse: AmountParser)
    ensures var r := Withdraw(b, id, fields, parse);
      && r.transition == NoChange && r.notice == None
      && (!r.reply.Withdrawn? ==> r.bank == b)
      && (|fields| < 3 ==> r.reply == WithdrawUsage)
      && (|fields| >= 3 && parse(fields[1]).None? ==> r.reply == InvalidAmount)
      && (|fields| >= 3 && parse(fields[1]).Some? ==>
            var amount := parse(fields[1]).value;
            && (id !in b.accounts ==> r.reply == ServerError(id))
            && (id in b.accounts ==>
                  var a := b.accounts[id];
                  && (a.password != fields[2] ==> r.reply == WrongPassword)
                  && (a.password == fields[2] && amount <= 0.0 ==> r.reply == NonPositiveAmount)
                  && (a.password == fields[2] && amount > 0.0 && a.balance < amount ==>
                        r.reply == InsufficientFunds)))
      && (r.reply.Withdrawn? <==> WithdrawAccepted(b, id, fields, parse))
      && (WithdrawAccepted(b, id, fields, parse) ==>
            var a, amount := b.accounts[id], parse(fields[1]).value;
            && r.bank.cpfIndex == b.cpfIndex
            && r.bank.accounts.Keys == b.accounts.Keys
            && r.bank.accounts[id].balance == a.balance - amount >= 0.0
            && r.bank.accounts[id].(balance := 0.0) == a.(balance := 0.0)
            && (forall k :: k in b.accounts && k != id ==> r.bank.accounts[k] == b.accounts[k])
            && r.reply == Withdrawn(amount, r.bank.accounts[id].balance)
            && Total(r.bank.accounts) == Total(b.accounts) - amount)
  {
    var r := Withdraw(b, id, fields, parse);
    if r.reply.Withdrawn? {
      SumProjectUpdate(b.accounts, BalanceOf, id, r.bank.accounts[id]);
    }
  }

  /** The checks TRANSFERIR makes before it moves money, for a command with an amount that parses. */
  predicate TransferAccepted(b: Bank, id: string, fields: seq<string>, parse: AmountParser)
  {
    && |fields| >= 4 && parse(fields[2]).Some?
    && IsDigits(fields[1]) && fields[1] in b.accounts && fields[1] != id && id in b.accounts
    && b.accounts[id].password == fields[3]
    && 0.0 < parse(fields[2]).value <= b.accounts[id].balance
  }

  /**
   * TRANSFERIR rejects, changing nothing, in this order: fewer than four
   * fields, an amount that does not parse, a destination that is not
   * numeric, one that does not exist, the caller's own account, a missing
   * caller account, a wrong password, an amount that is not positive, an
   * amount above the balance.
   */
  lemma TransferCheckOrder(b: Bank, id: string, fields: seq<string>, parse: AmountParser)
    ensures var r := Transfer(b, id, fields, parse);
      && (|fields| < 4 ==> r.reply == TransferUsage)
      && (|fields| >= 4 && parse(fields[2]).None? ==> r.reply == InvalidAmount)
      && (|fields| >= 4 && parse(fields[2]).Some? ==>
            var target, amount := fields[1], parse(fields[2]).value;
            && (!IsDigits(target) ==> r.reply == DestinationNotNumeric)
            && (IsDigits(target) && target !in b.accounts ==> r.reply == NoSuchDestination)
            && (IsDigits(target) && target in b.accounts && target == id ==> r.reply == SelfTransfer)
            && ((IsDigits(target) && target in b.accounts && target != id
                 && id !in b.accounts) ==> r.reply == ServerError(id))
            && ((IsDigits(target) && target in b.accounts && target != id && id in b.accounts
                 && b.accounts[id].password != fields[3]) ==> r.reply == WrongPassword)
            && ((IsDigits(target) && target in b.accounts && target != id && id in b.accounts
                 && b.accounts[id].password == fields[3] && amount <= 0.0) ==> r.reply == NonPositiveAmount)
            && ((IsDigits(target) && target in b.accounts && target != id && id in b.accounts
                 && b.accounts[id].password == fields[3] && amount > 0.0
                 && b.accounts[id].balance < amount) ==> r.reply == InsufficientFunds))
  {
  }

  /** TRANSFERIR moves money exactly when every check passes; otherwise it changes nothing. */
  lemma TransferDecision(b: Bank, id: string, fields: seq<string>, parse: AmountParser)
    ensures var r := Transfer(b, id, fields, parse);
      && r.transition == NoChange
      && (r.reply.Transferred? <==> TransferAccepted(b, id, fields, parse))
      && (!r.reply.Transferred? ==> r.bank == b && r.notice == None)
  {
  }

  /** What an accepted TRANSFERIR produces. */
  lemma TransferResult(b: Bank, id: string, fields: seq<string>, parse: AmountParser)
    requires TransferAccepted(b, id, fields, parse)
    ensures var target, amount := fields[1], parse(fields[2]).value;
      Transfer(b, id, fields, parse)
      == Outcome(b.(accounts := Moved(b.accounts, id, target, amount)),
                 Transferred(amount, b.accounts[target].name, target), NoChange,
                 Some(Notice(target, b.accounts[id].name, id, amount)))
  {
  }

  /** Moving money between two distinct accounts conserves the total and touches nothing else. */
  lemma MovedConserves(accounts: map<string, Account>, id: string, target: string, amount: Amount)
    requires id in accounts && target in accounts && id != target
    ensures var m := Moved(accounts, id, target, amount);
      && m.Keys == accounts.Keys
      && m[id] == accounts[id].(balance := accounts[id].balance - amount)
      && m[target] == accounts[target].(balance := accounts[target].balance + amount)
      && (forall k :: k in accounts && k != id && k != target ==> m[k] == accounts[k])
      && Total(m) == Total(accounts)
  {
    var debited := accounts[id := accounts[id].(balance := accounts[id].balance - amount)];
    SumProjectUpdate(accounts, BalanceOf, id, debited[id]);
    SumProjectUpdate(debited, BalanceOf, target, accounts[target].(balance := accounts[target].balance + amount));
  }

  /**
   * A transfer that passes every check debits the caller and credits the
   * destination by the amount, leaves every other account and the index
   * alone, conserves the total, keeps the caller's balance non-negative and
   * addresses a notification to the destination; any other outcome changes
   * nothing and notifies nobody.
   */
  lemma TransferOutcome(b: Bank, id: string, fields: seq<string>, parse: AmountParser)
    ensures var r := Transfer(b, id, fields, parse);
      && r.transition == NoChange
      && (r.reply.Transferred? <==> TransferAccepted(b, id, fields, parse))
      && (!r.reply.Transferred? ==> r.bank == b && r.notice == None)
      && (r.reply.Transferred? ==>
            var target, amount := fields[1], parse(fields[2]).value;
            && r.bank.cpfIndex == b.cpfIndex
            && r.bank.accounts.Keys == b.accounts.Keys
            && r.bank.accounts[id].balance == b.accounts[id].balance - amount >= 0.0
            && r.bank.accounts[target].balance == b.accounts[target].balance + amount
            && r.bank.accounts[id].(balance := 0.0) == b.accounts[id].(balance := 0.0)
            && r.bank.accounts[target].(balance := 0.0) == b.accounts[target].(balance := 0.0)
            && (forall k :: k in b.accounts && k != id && k != target ==> r.bank.accounts[k] == b.accounts[k])
            && Total(r.bank.accounts) == Total(b.accounts)
            && r.reply == Transferred(amount, b.accounts[target].name, target)
            && r.notice == Some(Notice(target, b.accounts[id].name, id, amount)))
  {
    TransferDecision(b, id, fields, parse);
    if TransferAccepted(b, id, fields, parse) {
      TransferResult(b, id, fields, parse);
      MovedConserves(b.accounts, id, fields[1], parse(fields[2]).value);
    }
  }

  /** LOGOUT asks the connection to end its session and changes nothing. */
  lemma LogoutOutcome(b: Bank, id: string)
    ensures Logout(b, id).bank == b && Logout(b, id).transition == LoggedOut && Logout(b, id).notice == None
    ensures id in b.accounts ==> Logout(b, id).reply == LoggedOutReply
  {
  }

  // ---------------------------------------------------------------------
  // The whole step
  // ---------------------------------------------------------------------

  /** `after` differs from `before` at most in balances, and none of them is negative. */
  ghost predicate BalancesOnly(before: Bank, after: Bank)
  {
    && after.cpfIndex == before.cpfIndex
    && after.accounts.Keys == before.accounts.Keys
    && (forall id :: id in before.accounts ==>
          after.accounts[id].(balance := 0.0) == before.accounts[id].(balance := 0.0)
          && after.accounts[id].balance >= 0.0)
  }

  /** Changing only balances, to non-negative ones, keeps the invariant. */
  lemma BalancesOnlyPreservesInvariant(before: Bank, after: Bank)
    requires Invariant(before) && BalancesOnly(before, after)
    ensures Invariant(after)
  {
    forall id | id in after.accounts
      ensures after.accounts[id].cpf == before.accounts[id].cpf && WellFormed(after.accounts[id])
    {
      var x, y := after.accounts[id], before.accounts[id];
      assert x.(balance := 0.0) == y.(balance := 0.0);
      assert x.cpf == x.(balance := 0.0).cpf;
    }
  }

  lemma DepositBalancesOnly(b: Bank, id: string, fields: seq<string>, parse: AmountParser)
    requires RecordsWellFormed(b)
    ensures BalancesOnly(b, Deposit(b, id, fields, parse).bank)
  {
  }

  lemma WithdrawBalancesOnly(b: Bank, id: string, fields: seq<string>, parse: AmountParser)
    requires RecordsWellFormed(b)
    ensures BalancesOnly(b, Withdraw(b, id, fields, parse).bank)
  {
  }

  lemma TransferBalancesOnly(b: Bank, id: string, fields: seq<string>, parse: AmountParser)
    requires RecordsWellFormed(b)
    ensures BalancesOnly(b, Transfer(b, id, fields, parse).bank)
  {
    TransferDecision(b, id, fields, parse);
    if TransferAccepted(b, id, fields, parse) {
      TransferResult(b, id, fields, parse);
      MovedBalancesOnly(b, id, fields[1], parse(fields[2]).value);
    }
  }

  lemma MovedBalancesOnly(b: Bank, id: string, target: string, amount: Amount)
    requires RecordsWellFormed(b)
    requires id in b.accounts && target in b.accounts && id != target
    requires 0.0 < amount <= b.accounts[id].balance
    ensures BalancesOnly(b, b.(accounts := Moved(b.accounts, id, target, amount)))
  {
    var m := Moved(b.accounts, id, target, amount);
    MovedConserves(b.accounts, id, target, amount);
    forall k | k in b.accounts
      ensures m[k].(balance := 0.0) == b.accounts[k].(balance := 0.0) && m[k].balance >= 0.0
    {
      assert WellFormed(b.accounts[k]);
    }
  }

  /** A dispatch changes the table only as CRIAR, DEPOSITAR, SACAR or TRANSFERIR does. */
  lemma DispatchBank(b: Bank, active: set<string>, fields: seq<string>, logged: Option<string>,
                     parse: AmountParser)
    requires |fields| >= 1 && IndexClosed(b)
    ensures var after := Dispatch(b, active, fields, logged, parse).bank;
      || after == b
      || after == Create(b, fields).bank
      || (logged.Some? && after == Deposit(b, logged.value, fields, parse).bank)
      || (logged.Some? && after == Withdraw(b, logged.value, fields, parse).bank)
      || (logged.Some? && after == Transfer(b, logged.value, fields, parse).bank)
  {
    var r := Dispatch(b, active, fields, logged, parse);
    var op := Keyword(fields[0]);
    if op.Criar? {
      assert r == Create(b, fields);
    } else if op.LoginOp? || logged.None? {
      assert r.bank == b;
    } else if op.Depositar? {
      assert r == Deposit(b, logged.value, fields, parse);
    } else if op.Sacar? {
      assert r == Withdraw(b, logged.value, fields, parse);
    } else if op.Transferir? {
      assert r == Transfer(b, logged.value, fields, parse);
    } else {
      assert r.bank == b;
    }
  }

  lemma StepBank(b: Bank, active: set<string>, command: string, logged: Option<string>, parse: AmountParser)
    requires IndexClosed(b)
    ensures var fields, after := Fields(command), Step(b, active, command, logged, parse).bank;
      || after == b
      || after == Create(b, fields).bank
      || (logged.Some? && after == Deposit(b, logged.value, fields, parse).bank)
      || (logged.Some? && after == Withdraw(b, logged.value, fields, parse).bank)
      || (logged.Some? && after == Transfer(b, logged.value, fields, parse).bank)
  {
    DispatchBank(b, active, Fields(command), logged, parse);
  }

  /**
   * Every command keeps the table invariant: fresh, table-size-derived
   * account numbers, the CPF index in bijection with the accounts, and no
   * negative balance.
   */
  lemma StepPreservesInvariant(b: Bank, active: set<string>, command: string, logged: Option<string>,
                               parse: AmountParser)
    requires Invariant(b)
    ensures Invariant(Step(b, active, command, logged, parse).bank)
  {
    var fields := Fields(command);
    StepBank(b, active, command, logged, parse);
    CreatePreservesInvariant(b, fields);
    if logged.Some? {
      var id := logged.value;
      DepositBalancesOnly(b, id, fields, parse);
      BalancesOnlyPreservesInvariant(b, Deposit(b, id, fields, parse).bank);
      WithdrawBalancesOnly(b, id, fields, parse);
      BalancesOnlyPreservesInvariant(b, Withdraw(b, id, fields, parse).bank);
      TransferBalancesOnly(b, id, fields, parse);
      BalancesOnlyPreservesInvariant(b, Transfer(b, id, fields, parse).bank);
    }
  }

  /** `after` keeps every account of `before` and every CPF registration, pointing where it pointed. */
  ghost predicate Extends(before: Bank, after: Bank)
  {
    && before.accounts.Keys <= after.accounts.Keys
    && (forall c :: c in before.cpfIndex ==> c in after.cpfIndex && after.cpfIndex[c] == before.cpfIndex[c])
  }

  lemma CreateExtends(b: Bank, fields: seq<string>)
    ensures Extends(b, Create(b, fields).bank)
  {
  }

  lemma DepositExtends(b: Bank, id: string, fields: seq<string>, parse: AmountParser)
    ensures Extends(b, Deposit(b, id, fields, parse).bank)
  {
  }

  lemma WithdrawExtends(b: Bank, id: string, fields: seq<string>, parse: AmountParser)
    ensures Extends(b, Withdraw(b, id, fields, parse).bank)
  {
  }

  lemma TransferExtends(b: Bank, id: string, fields: seq<string>, parse: AmountParser)
    ensures Extends(b, Transfer(b, id, fields, parse).bank)
  {
  }

  /** No command deletes an account or a CPF registration, or changes what a CPF points to. */
  lemma StepNeverForgets(b: Bank, active: set<string>, command: string, logged: Option<string>,
                         parse: AmountParser)
    requires IndexClosed(b)
    ensures Extends(b, Step(b, active, command, logged, parse).bank)
  {
    var fields := Fields(command);
    StepBank(b, active, command, logged, parse);
    CreateExtends(b, fields);
    if logged.Some? {
      DepositExtends(b, logged.value, fields, parse);
      WithdrawExtends(b, logged.value, fields, parse);
      TransferExtends(b, logged.value, fields, parse);
    }
  }

  // ---------------------------------------------------------------------
  // Live sessions
  // ---------------------------------------------------------------------

  /** Removing a session is idempotent, and a no-op for an account without one. */
  lemma DeregisterIdempotent(active: set<string>, logged: Option<string>)
    ensures Deregistered(Deregistered(active, logged), logged) == Deregistered(active, logged)
    ensures logged.Some? && logged.value !in active ==> Deregistered(active, logged) == active
  {
  }

  /**
   * Once a successful LOGIN has been registered, any further LOGIN for the
   * same CPF is refused until the session is removed; after the removal the
   * same LOGIN is answered exactly as the first time.
   */
  lemma SingleSession(b: Bank, active: set<string>, fields: seq<string>, again: seq<string>)
    requires Invariant(b)
    requires Login(b, active, fields).transition.LoggedIn?
    requires |again| == 3 && again[1] == fields[1]
    ensures var t := Login(b, active, fields).transition;
      && Login(b, Registered(active, t), again) == Reject(b, AlreadyActive)
      && Login(b, Deregistered(Registered(active, t), Some(t.id)), fields) == Login(b, active, fields)
  {
    var t := Login(b, active, fields).transition;
    assert t.id in b.accounts;
    assert IsDigits(t.id);
    assert Deregistered(Registered(active, t), Some(t.id)) == active;
  }

  /** Registering the transition of a LOGIN keeps every live session on an existing account. */
  lemma RegisteredWithinAccounts(b: Bank, active: set<string>, fields: seq<string>)
    requires IndexClosed(b) && active <= b.accounts.Keys
    ensures Registered(active, Login(b, active, fields).transition) <= b.accounts.Keys
  {
  }

  /** Only LOGIN opens a session, and only for an existing account without one. */
  lemma DispatchLoginOnlyNew(b: Bank, active: set<string>, fields: seq<string>, logged: Option<string>,
                             parse: AmountParser)
    requires |fields| >= 1 && IndexClosed(b)
    ensures var t := Dispatch(b, active, fields, logged, parse).transition;
      t.LoggedIn? ==> Keyword(fields[0]) == LoginOp && t.id in b.accounts && t.id !in active
  {
  }

  lemma StepLoginOnlyNew(b: Bank, active: set<string>, command: string, logged: Option<string>,
                         parse: AmountParser)
    requires IndexClosed(b)
    ensures var t := Step(b, active, command, logged, parse).transition;
      t.LoggedIn? ==> t.id in b.accounts && t.id !in active
  {
    DispatchLoginOnlyNew(b, active, Fields(command), logged, parse);
  }

  /**
   * The command `handle_client` builds from a typed CPF and password (line
   * 321) always selects LOGIN, whatever the user typed: its first field is
   * `LOGIN`.
   */
  lemma LoginCommandSelectsLogin(cpf: string, password: string)
    ensures Fields("LOGIN|" + cpf + "|" + password)[0] == "LOGIN"
    ensures Keyword(Fields("LOGIN|" + cpf + "|" + password)[0]) == LoginOp
  {
    var command, rest := "LOGIN|" + cpf + "|" + password, cpf + "|" + password;
    assert command == "LOGIN" + [SEP] + rest;
    assert Strip(command) == "LOGIN" + [SEP] + Strip(command)[6..] by {
      StripKeepsStart("LOGIN", SEP, rest);
    }
    assert Fields(command)[0] == "LOGIN" by {
      SplitFirst("LOGIN", SEP, Strip(command)[6..]);
    }
    KeywordLogin();
  }

  lemma KeywordLogin()
    ensures Keyword("LOGIN") == LoginOp
  {
    assert Upper("LOGIN") == "LOGIN";
  }

  /** A command whose first field selects LOGIN is answered by Login. */
  lemma StepOfLogin(b: Bank, active: set<string>, command: string, logged: Option<string>, parse: AmountParser)
    requires IndexClosed(b) && Keyword(Fields(command)[0]) == LoginOp
    ensures Step(b, active, command, logged, parse) == Login(b, active, Fields(command))
  {
  }

  /** A successful LOGIN names an existing account without a live session. */
  lemma LoginOnlyNew(b: Bank, active: set<string>, fields: seq<string>)
    requires IndexClosed(b)
    ensures var t := Login(b, active, fields).transition;
      t.LoggedIn? ==> t.id in b.accounts && t.id !in active
  {
  }
}
