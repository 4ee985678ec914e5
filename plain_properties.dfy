/**
 * What the earlier bank server's dispatcher guarantees: a command with the
 * wrong number of words gets its usage line and changes nothing, checks fire
 * in the order the source makes them, every rejection leaves the table
 * alone, balances stay non-negative, transfers conserve money, new accounts
 * get fresh table-size-derived numbers, and the reply text starts with
 * `[SUCESSO]` exactly when the operation succeeded.
 */
module PlainProperties {
  import opened Common
  import opened Text
  import opened Ledger
  import opened PlainBank

  // ---------------------------------------------------------------------
  // Money
  // ---------------------------------------------------------------------

  /** Adding to one balance adds the same to the total and keeps the account numbers. */
  lemma CreditTotal(accounts: map<string, Record>, id: string, amount: Amount)
    requires id in accounts
    ensures Credit(accounts, id, amount).Keys == accounts.Keys
    ensures Total(Credit(accounts, id, amount)) == Total(accounts) + amount
  {
    SumProjectUpdate(accounts, BalanceOf, id, accounts[id].(balance := accounts[id].balance + amount));
  }

  // ---------------------------------------------------------------------
  // Usage errors and unknown commands
  // ---------------------------------------------------------------------

  /** The number of words each keyword demands, command word included. */
  function Arity(op: Op): nat
  {
    match op
    case Criar => 2
    case Saldo => 2
    case Depositar => 3
    case Sacar => 4
    case Transferir => 5
    case Unknown => 0
  }

  /** The usage line each keyword answers with. */
  function Usage(op: Op): Reply
  {
    match op
    case Criar => CreateUsage
    case Saldo => BalanceUsage
    case Depositar => DepositUsage
    case Sacar => WithdrawUsage
    case Transferir => TransferUsage
    case Unknown => UnknownCommand
  }

  /**
   * A known keyword with the wrong number of words gets that keyword's usage
   * line, whatever the words say, and the table stays as it was; an unknown
   * keyword gets "Comando desconhecido" whatever follows it.
   */
  lemma WrongArityIsUsage(accounts: map<string, Record>, words: seq<string>, parse: AmountParser)
    requires |words| >= 1
    ensures var op, r := Keyword(words[0]), Dispatch(accounts, words, parse);
      && (op.Unknown? ==> r == Outcome(accounts, UnknownCommand))
      && (!op.Unknown? && |words| != Arity(op) ==> r == Outcome(accounts, Usage(op)))
  {
    var op := Keyword(words[0]);
    if op.Criar? {
      assert Dispatch(accounts, words, parse) == Create(accounts, words);
    } else if op.Saldo? {
      assert Dispatch(accounts, words, parse) == Balance(accounts, words);
    } else if op.Depositar? {
      assert Dispatch(accounts, words, parse) == Deposit(accounts, words, parse);
    } else if op.Sacar? {
      assert Dispatch(accounts, words, parse) == Withdraw(accounts, words, parse);
    } else if op.Transferir? {
      assert Dispatch(accounts, words, parse) == Transfer(accounts, words, parse);
    }
  }

  /**
   * The keyword is recognised in any letter case: a first word and its
   * upper-cased form select the same operation.
   */
  lemma KeywordIgnoresCase(word: string)
    ensures Keyword(Upper(word)) == Keyword(word)
  {
    UpperIdempotent(word);
  }

  // ---------------------------------------------------------------------
  // CRIAR
  // ---------------------------------------------------------------------

  /**
   * CRIAR with exactly one argument always creates an account: it is
   * numbered `len(contas) + 100`, which no existing account has, it starts
   * at zero with the given password, every other account is kept and the
   * total is unchanged. Any other number of words changes nothing.
   */
  lemma CreateOutcome(accounts: map<string, Record>, words: seq<string>)
    requires IdsIssued(accounts)
    ensures var r := Create(accounts, words);
      && (r.reply.Created? <==> |words| == 2)
      && (|words| != 2 ==> r == Outcome(accounts, CreateUsage))
      && (|words| == 2 ==>
            var id := AccountId(|accounts|);
            && r.reply == Created(id)
            && id !in accounts
            && r.accounts.Keys == accounts.Keys + {id}
            && |r.accounts| == |accounts| + 1
            && IdsIssued(r.accounts)
            && r.accounts[id] == Record(0.0, words[1])
            && (forall k :: k in accounts ==> r.accounts[k] == accounts[k])
            && Total(r.accounts) == Total(accounts))
  {
    if |words| == 2 {
      var n, rec := |accounts|, Record(0.0, words[1]);
      var id := AccountId(n);
      assert Create(accounts, words) == Outcome(accounts[id := rec], Created(id));
      FreshId(n);
      AddRecord(accounts, id, rec);
    }
  }

  /** Entering a record under a new number adds one account and keeps the others. */
  lemma AddRecord(accounts: map<string, Record>, id: string, rec: Record)
    requires id !in accounts
    ensures var m := accounts[id := rec];
      && m.Keys == accounts.Keys + {id}
      && |m| == |accounts| + 1
      && (forall k :: k in accounts ==> m[k] == accounts[k])
      && Total(m) == Total(accounts) + rec.balance
  {
    SumProjectInsert(accounts, BalanceOf, id, rec);
    var m := accounts[id := rec];
    assert |m.Keys| == |accounts.Keys| + 1;
  }

  lemma CreatePreservesInvariant(accounts: map<string, Record>, words: seq<string>)
    requires Invariant(accounts)
    ensures Invariant(Create(accounts, words).accounts)
  {
    if |words| == 2 {
      var rec := Record(0.0, words[1]);
      var id := AccountId(|accounts|);
      assert Create(accounts, words).accounts == accounts[id := rec];
      AddIssued(accounts, rec);
      assert NonNegative(accounts[id := rec]);
    }
  }

  /** Entering a record under the next number keeps the numbers those handed out so far. */
  lemma AddIssued(accounts: map<string, Record>, rec: Record)
    requires IdsIssued(accounts)
    ensures AccountId(|accounts|) !in accounts
    ensures IdsIssued(accounts[AccountId(|accounts|) := rec])
  {
    var n, id := |accounts|, AccountId(|accounts|);
    FreshId(n);
    var m := accounts[id := rec];
    assert m.Keys == IssuedIds(n) + {id};
    assert |m.Keys| == n + 1;
  }

  // ---------------------------------------------------------------------
  // SALDO and DEPOSITAR
  // ---------------------------------------------------------------------

  /** SALDO never changes the table; it reports the balance exactly when the account exists. */
  lemma BalanceReadsOnly(accounts: map<string, Record>, words: seq<string>)
    ensures var r := Balance(accounts, words);
      && r.accounts == accounts
      && (|words| != 2 ==> r.reply == BalanceUsage)
      && (|words| == 2 && words[1] in accounts ==> r.reply == BalanceIs(words[1], accounts[words[1]].balance))
      && (|words| == 2 && words[1] !in accounts ==> r.reply == NotFound(words[1]))
  {
  }

  /**
   * DEPOSITAR first parses the amount, then looks the account up, then
   * demands a positive amount; each failure changes nothing. On success the
   * balance of that account rises by exactly the amount, every other account
   * is kept, and the total rises by the amount.
   */
  lemma DepositOutcome(accounts: map<string, Record>, words: seq<string>, parse: AmountParser)
    ensures var r := Deposit(accounts, words, parse);
      && (!r.reply.Deposited? ==> r.accounts == accounts)
      && (|words| == 3 && parse(words[2]).None? ==> r.reply == Malformed)
      && (|words| == 3 && parse(words[2]).Some? ==>
            var id, amount := words[1], parse(words[2]).value;
            && (id !in accounts ==> r.reply == NotFound(id))
            && (id in accounts && amount <= 0.0 ==> r.reply == DepositNonPositive)
            && (r.reply.Deposited? <==> id in accounts && amount > 0.0)
            && (r.reply.Deposited? ==>
                  && r.reply == Deposited(amount, id)
                  && r.accounts.Keys == accounts.Keys
                  && r.accounts[id] == accounts[id].(balance := accounts[id].balance + amount)
                  && (forall k :: k in accounts && k != id ==> r.accounts[k] == accounts[k])
                  && Total(r.accounts) == Total(accounts) + amount))
  {
    var r := Deposit(accounts, words, parse);
    if r.reply.Deposited? {
      CreditTotal(accounts, words[1], parse(words[2]).value);
    }
  }

  // ---------------------------------------------------------------------
  // SACAR
  // ---------------------------------------------------------------------

  /**
   * SACAR demands four words and parses the amount, then checks in this
   * order: the account exists, the password matches, the amount is
   * positive, the balance covers it. Each failure changes nothing. On success the balance drops by exactly
   * the amount and stays non-negative, and the total drops by the amount.
   */
  lemma WithdrawOutcome(accounts: map<string, Record>, words: seq<string>, parse: AmountParser)
    ensures var r := Withdraw(accounts, words, parse);
      && (!r.reply.Withdrawn? ==> r.accounts == accounts)
      && (|words| != 4 ==> r.reply == WithdrawUsage)
      && (|words| == 4 && parse(words[2]).None? ==> r.reply == Malformed)
      && (|words| == 4 && parse(words[2]).Some? ==>
            var id, amount, password := words[1], parse(words[2]).value, words[3];
            && (id !in accounts ==> r.reply == NotFound(id))
            && (id in accounts && accounts[id].password != password ==> r.reply == WrongPassword)
            && (id in accounts && accounts[id].password == password && amount <= 0.0 ==>
                  r.reply == WithdrawNonPositive)
            && ((id in accounts && accounts[id].password == password && amount > 0.0
                 && accounts[id].balance < amount) ==> r.reply == InsufficientFunds)
            && (r.reply.Withdrawn? <==>
                  id in accounts && accounts[id].password == password && 0.0 < amount <= accounts[id].balance)
            && (r.reply.Withdrawn? ==>
                  && r.reply == Withdrawn(amount)
                  && r.accounts.Keys == accounts.Keys
                  && r.accounts[id] == accounts[id].(balance := accounts[id].balance - amount)
                  && r.accounts[id].balance >= 0.0
                  && (forall k :: k in accounts && k != id ==> r.accounts[k] == accounts[k])
                  && Total(r.accounts) == Total(accounts) - amount))
  {
    var r := Withdraw(accounts, words, parse);
    if r.reply.Withdrawn? {
      CreditTotal(accounts, words[1], -parse(words[2]).value);
    }
  }

  // ---------------------------------------------------------------------
  // TRANSFERIR
  // ---------------------------------------------------------------------

  /** Everything TRANSFERIR demands before it moves money. */
  predicate TransferAccepted(accounts: map<string, Record>, words: seq<string>, parse: AmountParser)
  {
    && |words| == 5 && parse(words[3]).Some?
    && words[1] in accounts && words[2] in accounts && words[1] != words[2]
    && accounts[words[1]].password == words[4]
    && 0.0 < parse(words[3]).value <= accounts[words[1]].balance
  }

  /**
   * TRANSFERIR parses the amount, then rejects, in this order: an origin
   * that does not exist, a destination that does not exist, the same account
   * on both sides, a wrong password for the origin, an amount that is not
   * positive, an amount above the origin's balance.
   */
  lemma TransferCheckOrder(accounts: map<string, Record>, words: seq<string>, parse: AmountParser)
    requires |words| == 5
    ensures var r := Transfer(accounts, words, parse);
      && (parse(words[3]).None? ==> r.reply == Malformed)
      && (parse(words[3]).Some? ==>
            var origin, target, amount, password := words[1], words[2], parse(words[3]).value, words[4];
            var distinct := origin in accounts && target in accounts && origin != target;
            && (origin !in accounts ==> r.reply == NoSuchOrigin(origin))
            && (origin in accounts && target !in accounts ==> r.reply == NoSuchDestination(target))
            && (origin in accounts && target in accounts && origin == target ==> r.reply == SameAccount)
            && (distinct && accounts[origin].password != password ==> r.reply == OriginWrongPassword)
            && (distinct && accounts[origin].password == password && amount <= 0.0 ==>
                  r.reply == TransferNonPositive)
            && ((distinct && accounts[origin].password == password && amount > 0.0
                 && accounts[origin].balance < amount) ==> r.reply == OriginInsufficient))
  {
  }

  /** Debiting one account and crediting another by the same amount conserves the total. */
  lemma MoveConserves(accounts: map<string, Record>, origin: string, target: string, amount: Amount)
    requires origin in accounts && target in accounts && origin != target
    ensures var m := Credit(Credit(accounts, origin, -amount), target, amount);
      && m.Keys == accounts.Keys
      && m[origin] == accounts[origin].(balance := accounts[origin].balance - amount)
      && m[target] == accounts[target].(balance := accounts[target].balance + amount)
      && (forall k :: k in accounts && k != origin && k != target ==> m[k] == accounts[k])
      && Total(m) == Total(accounts)
  {
    MoveTotal(accounts, origin, target, amount);
    var debited := Credit(accounts, origin, -amount);
    assert debited[target] == accounts[target];
  }

  lemma MoveTotal(accounts: map<string, Record>, origin: string, target: string, amount: Amount)
    requires origin in accounts && target in accounts
    ensures Total(Credit(Credit(accounts, origin, -amount), target, amount)) == Total(accounts)
  {
    var debited := Credit(accounts, origin, -amount);
    CreditTotal(accounts, origin, -amount);
    CreditTotal(debited, target, amount);
  }

  /**
   * A transfer moves money exactly when every check passes: the origin
   * loses the amount and stays non-negative, the destination gains it,
   * every other account is kept and the total is conserved. Any other
   * outcome changes nothing.
   */
  lemma TransferOutcome(accounts: map<string, Record>, words: seq<string>, parse: AmountParser)
    ensures var r := Transfer(accounts, words, parse);
      && (r.reply.Transferred? <==> TransferAccepted(accounts, words, parse))
      && (!r.reply.Transferred? ==> r.accounts == accounts)
      && (r.reply.Transferred? ==>
            var origin, target, amount := words[1], words[2], parse(words[3]).value;
            && r.reply == Transferred(amount, target)
            && r.accounts.Keys == accounts.Keys
            && r.accounts[origin] == accounts[origin].(balance := accounts[origin].balance - amount)
            && r.accounts[origin].balance >= 0.0
            && r.accounts[target] == accounts[target].(balance := accounts[target].balance + amount)
            && (forall k :: k in accounts && k != origin && k != target ==> r.accounts[k] == accounts[k])
            && Total(r.accounts) == Total(accounts))
  {
    var r := Transfer(accounts, words, parse);
    if TransferAccepted(accounts, words, parse) {
      var origin, target, amount := words[1], words[2], parse(words[3]).value;
      assert r == Outcome(Credit(Credit(accounts, origin, -amount), target, amount), Transferred(amount, target));
      MoveConserves(accounts, origin, target, amount);
    } else {
      assert r.accounts == accounts && !r.reply.Transferred?;
    }
  }

  // ---------------------------------------------------------------------
  // The whole dispatcher
  // ---------------------------------------------------------------------

  /** Only CRIAR adds an account, and no command removes one or changes the table on failure. */
  lemma DispatchChanges(accounts: map<string, Record>, words: seq<string>, parse: AmountParser)
    requires |words| >= 1
    ensures var r := Dispatch(accounts, words, parse);
      && (!IsSuccess(r.reply) ==> r.accounts == accounts)
      && accounts.Keys <= r.accounts.Keys
      && (!r.reply.Created? ==> r.accounts.Keys == accounts.Keys)
  {
    var op := Keyword(words[0]);
    if op.Depositar? {
      DepositOutcome(accounts, words, parse);
    } else if op.Sacar? {
      WithdrawDecision(accounts, words, parse);
    } else if op.Transferir? {
      TransferOutcome(accounts, words, parse);
    }
  }

  lemma WithdrawDecision(accounts: map<string, Record>, words: seq<string>, parse: AmountParser)
    ensures var r := Withdraw(accounts, words, parse);
      && (!r.reply.Withdrawn? ==> r.accounts == accounts)
      && (r.reply.Withdrawn? ==> r.accounts.Keys == accounts.Keys)
  {
  }

  /** `after` has the same accounts as `before`, and no negative balance. */
  ghost predicate BalancesOnly(before: map<string, Record>, after: map<string, Record>)
  {
    after.Keys == before.Keys && NonNegative(after)
  }

  lemma BalancesOnlyPreservesInvariant(before: map<string, Record>, after: map<string, Record>)
    requires Invariant(before) && BalancesOnly(before, after)
    ensures Invariant(after)
  {
    assert |after| == |after.Keys| == |before.Keys| == |before|;
  }

  lemma DepositBalancesOnly(accounts: map<string, Record>, words: seq<string>, parse: AmountParser)
    requires NonNegative(accounts)
    ensures BalancesOnly(accounts, Deposit(accounts, words, parse).accounts)
  {
    var r := Deposit(accounts, words, parse);
    if r.reply.Deposited? {
      var id, amount := words[1], parse(words[2]).value;
      assert r.accounts == Credit(accounts, id, amount) && amount > 0.0;
    }
  }

  lemma WithdrawBalancesOnly(accounts: map<string, Record>, words: seq<string>, parse: AmountParser)
    requires NonNegative(accounts)
    ensures BalancesOnly(accounts, Withdraw(accounts, words, parse).accounts)
  {
    var r := Withdraw(accounts, words, parse);
    if r.reply.Withdrawn? {
      var id, amount := words[1], parse(words[2]).value;
      assert r.accounts == Credit(accounts, id, -amount) && amount <= accounts[id].balance;
    }
  }

  lemma TransferBalancesOnly(accounts: map<string, Record>, words: seq<string>, parse: AmountParser)
    requires NonNegative(accounts)
    ensures BalancesOnly(accounts, Transfer(accounts, words, parse).accounts)
  {
    if TransferAccepted(accounts, words, parse) {
      var origin, target, amount := words[1], words[2], parse(words[3]).value;
      var debited := Credit(accounts, origin, -amount);
      assert Transfer(accounts, words, parse).accounts == Credit(debited, target, amount);
      assert BalancesOnly(accounts, debited);
    }
  }

  /**
   * Every command keeps the table invariant: the account numbers are those
   * handed out by the creations so far, and no balance is negative. A server
   * that starts from an empty table therefore never overwrites an account
   * when it creates one.
   */
  lemma DispatchPreservesInvariant(accounts: map<string, Record>, words: seq<string>, parse: AmountParser)
    requires |words| >= 1 && Invariant(accounts)
    ensures Invariant(Dispatch(accounts, words, parse).accounts)
  {
    var op := Keyword(words[0]);
    var r := Dispatch(accounts, words, parse);
    if op.Criar? {
      assert r == Create(accounts, words);
      CreatePreservesInvariant(accounts, words);
    } else if op.Depositar? {
      assert r == Deposit(accounts, words, parse);
      DepositBalancesOnly(accounts, words, parse);
      BalancesOnlyPreservesInvariant(accounts, r.accounts);
    } else if op.Sacar? {
      assert r == Withdraw(accounts, words, parse);
      WithdrawBalancesOnly(accounts, words, parse);
      BalancesOnlyPreservesInvariant(accounts, r.accounts);
    } else if op.Transferir? {
      assert r == Transfer(accounts, words, parse);
      TransferBalancesOnly(accounts, words, parse);
      BalancesOnlyPreservesInvariant(accounts, r.accounts);
    } else {
      assert r.accounts == accounts;
    }
  }

  /**
   * `comando.strip().split()` has a first word exactly when the command
   * holds a character other than white space, which is what `partes[0]`
   * (line 45) needs.
   */
  lemma TokensEmpty(command: string)
    ensures Tokens(command) == [] <==> Blank(command)
  {
    WordsEmpty(Strip(command));
    StripBlank(command);
  }

  lemma StepPreservesInvariant(accounts: map<string, Record>, command: string, parse: AmountParser)
    requires |Tokens(command)| >= 1 && Invariant(accounts)
    ensures Invariant(Step(accounts, command, parse).accounts)
  {
    DispatchPreservesInvariant(accounts, Tokens(command), parse);
  }

  // ---------------------------------------------------------------------
  // Reply texts
  // ---------------------------------------------------------------------

  /** `s` opens with `prefix`. */
  predicate StartsWith(s: string, prefix: string)
  {
    |prefix| <= |s| && s[..|prefix|] == prefix
  }

  /** Appending keeps an opening. */
  lemma StartsWithAppend(s: string, t: string, prefix: string)
    requires StartsWith(s, prefix)
    ensures StartsWith(s + t, prefix)
  {
    assert (s + t)[..|prefix|] == s[..|prefix|];
  }

  /**
   * Every reply text starts with `[SUCESSO]` when the operation succeeded
   * and with `[FALHA]` when it did not.
   */
  lemma MessageTag(r: Reply, fmt: Amount -> string)
    ensures IsSuccess(r) ==> StartsWith(Message(r, fmt), SUCCEEDED)
    ensures !IsSuccess(r) ==> StartsWith(Message(r, fmt), FAILED)
  {
    var tag := if IsSuccess(r) then SUCCEEDED else FAILED;
    assert Message(r, fmt) == tag + Detail(r, fmt);
    StartsWithAppend(tag, Detail(r, fmt), tag);
  }

  /**
   * The tag alone tells a client whether the operation succeeded: the text
   * starts with `[SUCESSO]` exactly when it did.
   */
  lemma MessageTellsSuccess(r: Reply, fmt: Amount -> string)
    ensures IsSuccess(r) <==> StartsWith(Message(r, fmt), SUCCEEDED)
  {
    MessageTag(r, fmt);
    var m := Message(r, fmt);
    if !IsSuccess(r) {
      assert m[1] == FAILED[1] != SUCCEEDED[1];
    }
  }
}
