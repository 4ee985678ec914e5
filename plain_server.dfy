/**
 * The earlier bank server's state and its one operation: the global table
 * `contas`, updated in place by `processar_comando` under `contas_lock`.
 * Each call is one atomic step.
 */
module PlainServer {
  import opened Common
  import opened Text
  import opened Ledger
  import opened PlainBank
  import opened PlainProperties

  class Server {
    /** `contas`: account number to `{"saldo", "senha"}`. */
    var accounts: map<string, Record>

    ghost predicate Valid()
      reads this
    {
      Invariant(accounts)
    }

    /** A server started without a saved table (`carregar_contas` finding no file). */
    constructor ()
      ensures Valid() && accounts == map[]
    {
      accounts := map[];
      assert IssuedIds(0) == {};
    }

    /**
     * One call of `processar_comando(comando)`: the reply and the new table
     * are those of Step, and the invariant is kept.
     */
    method ProcessCommand(command: string, parse: AmountParser) returns (reply: Reply)
      requires Valid() && |Tokens(command)| >= 1
      modifies this
      ensures Step(old(accounts), command, parse) == Outcome(accounts, reply)
      ensures Valid()
    {
      ghost var before := accounts;
      reply := DispatchWords(Tokens(command), parse);
      DispatchPreservesInvariant(before, Tokens(command), parse);
    }

    /** The chain of keyword comparisons inside the `try` (lines 45-131). */
    method DispatchWords(words: seq<string>, parse: AmountParser) returns (reply: Reply)
      requires |words| >= 1
      modifies this
      ensures Dispatch(old(accounts), words, parse) == Outcome(accounts, reply)
    {
      var op := Keyword(words[0]);
      if op.Criar? {
        reply := CreateAccount(words);
      } else if op.Saldo? {
        reply := if |words| != 2 then BalanceUsage
                 else if words[1] in accounts then BalanceIs(words[1], accounts[words[1]].balance)
                 else NotFound(words[1]);
      } else if op.Depositar? {
        reply := DepositInto(words, parse);
      } else if op.Sacar? {
        reply := WithdrawFrom(words, parse);
      } else if op.Transferir? {
        reply := TransferBetween(words, parse);
      } else {
        reply := UnknownCommand;
      }
    }

    /** `CRIAR <senha>` (lines 49-57): enters the new record in place. */
    method CreateAccount(words: seq<string>) returns (reply: Reply)
      modifies this
      ensures Create(old(accounts), words) == Outcome(accounts, reply)
    {
      if |words| != 2 {
        return CreateUsage;
      }
      var id := NatToString(|accounts| + ID_OFFSET);
      accounts := accounts[id := Record(0.0, words[1])];
      reply := Created(id);
    }

    /** `DEPOSITAR <numero_da_conta> <valor>` (lines 69-83): adds to the balance in place. */
    method DepositInto(words: seq<string>, parse: AmountParser) returns (reply: Reply)
      modifies this
      ensures Deposit(old(accounts), words, parse) == Outcome(accounts, reply)
    {
      if |words| != 3 {
        return DepositUsage;
      }
      var id, parsed := words[1], parse(words[2]);
      if parsed.None? {
        return Malformed;
      }
      var amount := parsed.value;
      if id !in accounts {
        return NotFound(id);
      }
      if amount <= 0.0 {
        return DepositNonPositive;
      }
      accounts := accounts[id := accounts[id].(balance := accounts[id].balance + amount)];
      reply := Deposited(amount, id);
    }

    /** `SACAR <numero_da_conta> <valor> <senha>` (lines 85-104): takes from the balance in place. */
    method WithdrawFrom(words: seq<string>, parse: AmountParser) returns (reply: Reply)
      modifies this
      ensures Withdraw(old(accounts), words, parse) == Outcome(accounts, reply)
    {
      if |words| != 4 {
        return WithdrawUsage;
      }
      var id, parsed, password := words[1], parse(words[2]), words[3];
      if parsed.None? {
        return Malformed;
      }
      var amount := parsed.value;
      if id !in accounts {
        return NotFound(id);
      }
      if accounts[id].password != password {
        return WrongPassword;
      }
      if amount <= 0.0 {
        return WithdrawNonPositive;
      }
      if accounts[id].balance < amount {
        return InsufficientFunds;
      }
      accounts := accounts[id := accounts[id].(balance := accounts[id].balance - amount)];
      reply := Withdrawn(amount);
    }

    /**
     * `TRANSFERIR <origem> <destino> <valor> <senha>` (lines 106-123): debits
     * the origin, then credits the destination, in place.
     */
    method TransferBetween(words: seq<string>, parse: AmountParser) returns (reply: Reply)
      modifies this
      ensures Transfer(old(accounts), words, parse) == Outcome(accounts, reply)
    {
      if |words| != 5 {
        return TransferUsage;
      }
      var origin, target, parsed, password := words[1], words[2], parse(words[3]), words[4];
      if parsed.None? {
        return Malformed;
      }
      var amount := parsed.value;
      if origin !in accounts {
        return NoSuchOrigin(origin);
      }
      if target !in accounts {
        return NoSuchDestination(target);
      }
      if origin == target {
        return SameAccount;
      }
      if accounts[origin].password != password {
        return OriginWrongPassword;
      }
      if amount <= 0.0 {
        return TransferNonPositive;
      }
      if accounts[origin].balance < amount {
        return OriginInsufficient;
      }
      accounts := accounts[origin := accounts[origin].(balance := accounts[origin].balance - amount)];
      accounts := accounts[target := accounts[target].(balance := accounts[target].balance + amount)];
      reply := Transferred(amount, target);
    }
  }
}
