/**
 * The shared state of the Telnet bank server and the steps that change it:
 * `processar_comando` updating `contas` and `cpf_para_conta` in place, and
 * `handle_client` entering and removing the connection's account in
 * `conexoes_ativas`. The locks make each `processar_comando` call and each
 * registration or removal one atomic step; only the set of account numbers
 * with a live connection is kept of `conexoes_ativas`, not the sockets.
 */
module TelnetServer {
  import opened Common
  import opened Text
  import opened Ledger
  import opened TelnetBank
  import opened TelnetProperties

  class Server {
    /** `contas`: account number to record. */
    var accounts: map<string, Account>
    /** `cpf_para_conta`: CPF to account number. */
    var cpfIndex: map<string, string>
    /** The keys of `conexoes_ativas`: accounts with a live session. */
    var active: set<string>

    function State(): Bank
      reads this
    {
      Bank(accounts, cpfIndex)
    }

    /** The table invariant, and every live session belongs to an existing account. */
    ghost predicate Valid()
      reads this
    {
      Invariant(State()) && active <= accounts.Keys
    }

    /** A server started without a saved table (`carregar_contas` finding no file). */
    constructor ()
      ensures Valid()
      ensures accounts == map[] && cpfIndex == map[] && active == {}
    {
      accounts, cpfIndex, active := map[], map[], {};
      assert IssuedIds(0) == {};
    }

    /**
     * One call of `processar_comando(comando, num_conta_logada)`: the reply,
     * transition and notification are those of Step, and so is the new
     * table; the invariant is kept and no account disappears, so every live
     * session still names an account.
     */
    method ProcessCommand(command: string, logged: Option<string>, parse: AmountParser)
      returns (reply: Reply, transition: Transition, notice: Option<Notice>)
      requires Valid()
      modifies this`accounts, this`cpfIndex
      ensures Step(old(State()), active, command, logged, parse) == Outcome(State(), reply, transition, notice)
      ensures Valid()
    {
      ghost var before := State();
      reply, transition, notice := DispatchFields(Fields(command), logged, parse);
      StepPreservesInvariant(before, active, command, logged, parse);
      StepNeverForgets(before, active, command, logged, parse);
    }

    /** The dispatch on the keyword of the split command (lines 69-245). */
    method DispatchFields(fields: seq<string>, logged: Option<string>, parse: AmountParser)
      returns (reply: Reply, transition: Transition, notice: Option<Notice>)
      requires |fields| >= 1 && IndexClosed(State())
      modifies this`accounts, this`cpfIndex
      ensures Dispatch(old(State()), active, fields, logged, parse) == Outcome(State(), reply, transition, notice)
    {
      transition, notice := NoChange, None;
      var op := Keyword(fields[0]);
      if op.Criar? {
        reply := CreateAccount(fields);
      } else if op.LoginOp? {
        reply, transition := CheckLogin(fields);
      } else if logged.None? {
        reply := NotLoggedIn;
      } else {
        var id := logged.value;
        if op.Saldo? {
          reply := if id in accounts then BalanceIs(accounts[id].balance) else ServerError(id);
        } else if op.Depositar? {
          reply := DepositInto(id, fields, parse);
        } else if op.Sacar? {
          reply := WithdrawFrom(id, fields, parse);
        } else if op.Transferir? {
          reply, notice := TransferFrom(id, fields, parse);
        } else if op.LogoutOp? {
          transition := LoggedOut;
          reply := if id in accounts then LoggedOutReply else ServerError(id);
        } else {
          reply := UnknownCommand;
        }
      }
    }

    /** `CRIAR|nome|cpf|senha` (lines 74-105), entering the record and the CPF in place. */
    method CreateAccount(fields: seq<string>) returns (reply: Reply)
      modifies this`accounts, this`cpfIndex
      ensures Create(old(State()), fields) == Outcome(State(), reply, NoChange, None)
    {
      if |fields| != 4 {
        return CreateUsage;
      }
      var name, cpf, password := fields[1], fields[2], fields[3];
      if !IsDigits(cpf) || |cpf| != CPF_LENGTH {
        return InvalidCpf;
      }
      if name == [] || SEP in name {
        return InvalidName;
      }
      if password == [] || SEP in password {
        return InvalidPassword;
      }
      if cpf in cpfIndex {
        return DuplicateCpf;
      }
      var id := NatToString(|accounts| + ID_OFFSET);
      accounts := accounts[id := Account(name, cpf, password, 0.0)];
      cpfIndex := cpfIndex[cpf := id];
      reply := Created(id, name);
    }

    /** `LOGIN|cpf|senha` (lines 107-140): reads the table and the live sessions, changes nothing. */
    method CheckLogin(fields: seq<string>) returns (reply: Reply, transition: Transition)
      requires IndexClosed(State())
      ensures Login(State(), active, fields) == Outcome(State(), reply, transition, None)
    {
      if |fields| != 3 {
        return LoginUsage, NoChange;
      }
      var cpf, password := fields[1], fields[2];
      if !IsDigits(cpf) {
        return CpfNotNumeric, NoChange;
      }
      if cpf !in cpfIndex {
        return BadCredentials, NoChange;
      }
      var id := cpfIndex[cpf];
      if id in active {
        return AlreadyActive, NoChange;
      }
      if accounts[id].password == password {
        var name := accounts[id].name;
        return Welcome(name, id), LoggedIn(id, name);
      }
      return BadCredentials, NoChange;
    }

    /** `DEPOSITAR|valor` (lines 150-165), adding to the balance in place. */
    method DepositInto(id: string, fields: seq<string>, parse: AmountParser) returns (reply: Reply)
      modifies this`accounts
      ensures Deposit(old(State()), id, fields, parse) == Outcome(State(), reply, NoChange, None)
    {
      if |fields| < 2 || parse(fields[1]).None? {
        return DepositInvalid;
      }
      var amount := parse(fields[1]).value;
      if amount <= 0.0 {
        return NonPositiveAmount;
      }
      if id !in accounts {
        return ServerError(id);
      }
      accounts := accounts[id := accounts[id].(balance := accounts[id].balance + amount)];
      reply := Deposited(amount, accounts[id].balance);
    }

    /** `SACAR|valor|senha` (lines 167-190), taking from the balance in place. */
    method WithdrawFrom(id: string, fields: seq<string>, parse: AmountParser) returns (reply: Reply)
      modifies this`accounts
      ensures Withdraw(old(State()), id, fields, parse) == Outcome(State(), reply, NoChange, None)
    {
      if |fields| < 3 {
        return WithdrawUsage;
      }
      if parse(fields[1]).None? {
        return InvalidAmount;
      }
      var amount, password := parse(fields[1]).value, fields[2];
      if id !in accounts {
        return ServerError(id);
      }
      if accounts[id].password != password {
        return WrongPassword;
      }
      if amount <= 0.0 {
        return NonPositiveAmount;
      }
      if accounts[id].balance < amount {
        return InsufficientFunds;
      }
      accounts := accounts[id := accounts[id].(balance := accounts[id].balance - amount)];
      reply := Withdrawn(amount, accounts[id].balance);
    }

    /**
     * `TRANSFERIR|destino|valor|senha` (lines 192-233): debits the caller,
     * then credits the destination, in place, and hands back the notice
     * for the destination's connection.
     */
    method TransferFrom(id: string, fields: seq<string>, parse: AmountParser)
      returns (reply: Reply, notice: Option<Notice>)
      modifies this`accounts
      ensures Transfer(old(State()), id, fields, parse) == Outcome(State(), reply, NoChange, notice)
    {
      notice := None;
      if |fields| < 4 {
        return TransferUsage, None;
      }
      if parse(fields[2]).None? {
        return InvalidAmount, None;
      }
      var target, amount, password := fields[1], parse(fields[2]).value, fields[3];
      if !IsDigits(target) {
        return DestinationNotNumeric, None;
      }
      if target !in accounts {
        return NoSuchDestination, None;
      }
      if target == id {
        return SelfTransfer, None;
      }
      if id !in accounts {
        return ServerError(id), None;
      }
      if accounts[id].password != password {
        return WrongPassword, None;
      }
      if amount <= 0.0 {
        return NonPositiveAmount, None;
      }
      if accounts[id].balance < amount {
        return InsufficientFunds, None;
      }
      accounts := accounts[id := accounts[id].(balance := accounts[id].balance - amount)];
      accounts := accounts[target := accounts[target].(balance := accounts[target].balance + amount)];
      var senderName, targetName := accounts[id].name, accounts[target].name;
      reply := Transferred(amount, targetName, target);
      notice := Some(Notice(target, senderName, id, amount));
    }

    /**
     * Menu option 1 of `handle_client` (lines 314-328): the CPF and password
     * typed by the user become a LOGIN command run without a session; on
     * success the account is entered among the live sessions and becomes the
     * connection's account. The source takes `conexoes_lock` twice here, once
     * for LOGIN's test and once for the registration; this method runs both
     * as one step.
     */
    method AccessAccount(cpf: string, password: string)
      returns (reply: Reply, logged: Option<string>)
      requires Valid()
      modifies this`active
      ensures var r := Login(State(), old(active), Fields("LOGIN|" + cpf + "|" + password));
        && reply == r.reply
        && active == Registered(old(active), r.transition)
        && (r.transition.LoggedIn? <==> logged.Some?)
        && (logged.Some? ==> logged.value == r.transition.id && logged.value !in old(active))
      ensures Valid()
    {
      reply, logged := OpenSession(Fields("LOGIN|" + cpf + "|" + password));
    }

    /** LOGIN on the split command, then the registration of its transition. */
    method OpenSession(fields: seq<string>) returns (reply: Reply, logged: Option<string>)
      requires Valid()
      modifies this`active
      ensures var r := Login(State(), old(active), fields);
        && reply == r.reply
        && active == Registered(old(active), r.transition)
        && (r.transition.LoggedIn? <==> logged.Some?)
        && (logged.Some? ==> logged.value == r.transition.id && logged.value !in old(active))
      ensures Valid()
    {
      var transition;
      reply, transition := CheckLogin(fields);
      LoginOnlyNew(State(), active, fields);
      logged := None;
      if transition.LoggedIn? {
        Register(transition);
        logged := Some(transition.id);
      }
    }

    /** `conexoes_ativas[num_conta_logada] = conn` after a successful LOGIN (lines 325-328). */
    method Register(t: Transition)
      requires t.LoggedIn? ==> t.id in accounts
      modifies this`active
      ensures active == Registered(old(active), t)
      ensures old(Valid()) ==> Valid()
    {
      if t.LoggedIn? {
        active := active + {t.id};
      }
    }

    /**
     * Removing the connection's account from the live sessions, as the end
     * of the logged-in menu (lines 384-389) and the `finally` of
     * `handle_client` (lines 419-423) both do: only when the connection has
     * an account, and only if it is still entered. The connection is left
     * without an account.
     */
    method EndSession(logged: Option<string>) returns (after: Option<string>)
      modifies this`active
      ensures active == Deregistered(old(active), logged)
      ensures after == (if IsSet(logged) then None else logged)
      ensures old(Valid()) ==> Valid()
    {
      after := logged;
      if IsSet(logged) {
        if logged.value in active {
          active := active - {logged.value};
        }
        after := None;
      }
    }
  }
}
