/**
 * The command dispatcher of the earlier bank server (`processar_comando` in
 * servidor.py) as a function of the account table `contas` it reads and
 * updates. There are no sessions: a command is split on white space, its
 * first word, upper-cased, selects the operation, and every operation names
 * the account it works on. The result is one reply, `[SUCESSO] ...` or
 * `[FALHA] ...`, with the new table.
 */
module PlainBank {
  import opened Common
  import opened Text
  import opened Ledger

  /** One entry of `contas`: `{"saldo": ..., "senha": ...}`. */
  datatype Record = Record(balance: Amount, password: string)

  /** Every reply `processar_comando` can give; Message spells out the text. */
  datatype Reply =
    | CreateUsage
    | Created(id: string)
    | BalanceUsage
    | BalanceIs(id: string, balance: Amount)
    | NotFound(id: string)
    | DepositUsage
    | Deposited(amount: Amount, id: string)
    | DepositNonPositive
    | WithdrawUsage
    | WrongPassword
    | WithdrawNonPositive
    | Withdrawn(amount: Amount)
    | InsufficientFunds
    | TransferUsage
    | NoSuchOrigin(id: string)
    | NoSuchDestination(id: string)
    | SameAccount
    | OriginWrongPassword
    | TransferNonPositive
    | OriginInsufficient
    | Transferred(amount: Amount, target: string)
    | UnknownCommand
    | Malformed

  /** The reply together with the table after the step. */
  datatype Outcome = Outcome(accounts: map<string, Record>, reply: Reply)

  /** The command keywords, recognised case-insensitively. */
  datatype Op = Criar | Saldo | Depositar | Sacar | Transferir | Unknown

  /** `operacao = partes[0].upper()` and the chain of comparisons that follows it. */
  function Keyword(word: string): Op
  {
    var op := Upper(word);
    if op == "CRIAR" then Criar
    else if op == "SALDO" then Saldo
    else if op == "DEPOSITAR" then Depositar
    else if op == "SACAR" then Sacar
    else if op == "TRANSFERIR" then Transferir
    else Unknown
  }

  /** The numbers in use are those the creations handed out, and no balance is negative. */
  ghost predicate Invariant(accounts: map<string, Record>)
  {
    IdsIssued(accounts) && NonNegative(accounts)
  }

  ghost predicate IdsIssued(accounts: map<string, Record>)
  {
    accounts.Keys == IssuedIds(|accounts|)
  }

  ghost predicate NonNegative(accounts: map<string, Record>)
  {
    forall id :: id in accounts ==> accounts[id].balance >= 0.0
  }

  /** The money held by all accounts together. */
  ghost function Total(accounts: map<string, Record>): Amount
  {
    Sum(Project(accounts, BalanceOf))
  }

  function BalanceOf(r: Record): Amount
  {
    r.balance
  }

  /** The table with `amount` added to the balance of `id`. */
  function Credit(accounts: map<string, Record>, id: string, amount: Amount): map<string, Record>
    requires id in accounts
  {
    accounts[id := accounts[id].(balance := accounts[id].balance + amount)]
  }

  // ---------------------------------------------------------------------
  // The operations
  // ---------------------------------------------------------------------

  /** `CRIAR <senha>` (lines 49-57). */
  function Create(accounts: map<string, Record>, words: seq<string>): Outcome
  {
    if |words| != 2 then Outcome(accounts, CreateUsage)
    else
      var id := AccountId(|accounts|);
      Outcome(accounts[id := Record(0.0, words[1])], Created(id))
  }

  /** `SALDO <numero_da_conta>` (lines 59-67). */
  function Balance(accounts: map<string, Record>, words: seq<string>): Outcome
  {
    if |words| != 2 then Outcome(accounts, BalanceUsage)
    else
      var id := words[1];
      if id in accounts then Outcome(accounts, BalanceIs(id, accounts[id].balance))
      else Outcome(accounts, NotFound(id))
  }

  /**
   * `DEPOSITAR <numero_da_conta> <valor>` (lines 69-83). The amount is
   * parsed before the account is looked up, so an unparsable amount is
   * reported as a malformed command even for a missing account.
   */
  function Deposit(accounts: map<string, Record>, words: seq<string>, parse: AmountParser): Outcome
  {
    if |words| != 3 then Outcome(accounts, DepositUsage)
    else if parse(words[2]).None? then Outcome(accounts, Malformed)
    else
      var id, amount := words[1], parse(words[2]).value;
      if id !in accounts then Outcome(accounts, NotFound(id))
      else if amount > 0.0 then Outcome(Credit(accounts, id, amount), Deposited(amount, id))
      else Outcome(accounts, DepositNonPositive)
  }

  /** `SACAR <numero_da_conta> <valor> <senha>` (lines 85-104). */
  function Withdraw(accounts: map<string, Record>, words: seq<string>, parse: AmountParser): Outcome
  {
    if |words| != 4 then Outcome(accounts, WithdrawUsage)
    else if parse(words[2]).None? then Outcome(accounts, Malformed)
    else
      var id, amount, password := words[1], parse(words[2]).value, words[3];
      if id !in accounts then Outcome(accounts, NotFound(id))
      else if accounts[id].password != password then Outcome(accounts, WrongPassword)
      else if amount <= 0.0 then Outcome(accounts, WithdrawNonPositive)
      else if accounts[id].balance >= amount then Outcome(Credit(accounts, id, -amount), Withdrawn(amount))
      else Outcome(accounts, InsufficientFunds)
  }

  /** `TRANSFERIR <origem> <destino> <valor> <senha>` (lines 106-123). */
  function Transfer(accounts: map<string, Record>, words: seq<string>, parse: AmountParser): Outcome
  {
    if |words| != 5 then Outcome(accounts, TransferUsage)
    else if parse(words[3]).None? then Outcome(accounts, Malformed)
    else
      var origin, target, amount, password := words[1], words[2], parse(words[3]).value, words[4];
      if origin !in accounts then Outcome(accounts, NoSuchOrigin(origin))
      else if target !in accounts then Outcome(accounts, NoSuchDestination(target))
      else if origin == target then Outcome(accounts, SameAccount)
      else if accounts[origin].password != password then Outcome(accounts, OriginWrongPassword)
      else if amount <= 0.0 then Outcome(accounts, TransferNonPositive)
      else if accounts[origin].balance < amount then Outcome(accounts, OriginInsufficient)
      else Outcome(Credit(Credit(accounts, origin, -amount), target, amount), Transferred(amount, target))
  }

  /** The dispatch on the already split command (lines 45-131). */
  function Dispatch(accounts: map<string, Record>, words: seq<string>, parse: AmountParser): Outcome
    requires |words| >= 1
  {
    var op := Keyword(words[0]);
    if op.Criar? then Create(accounts, words)
    else if op.Saldo? then Balance(accounts, words)
    else if op.Depositar? then Deposit(accounts, words, parse)
    else if op.Sacar? then Withdraw(accounts, words, parse)
    else if op.Transferir? then Transfer(accounts, words, parse)
    else Outcome(accounts, UnknownCommand)
  }

  /** `partes = comando.strip().split()` (line 44). */
  function Tokens(command: string): seq<string>
  {
    Words(Strip(command))
  }

  /**
   * One call of `processar_comando(comando)`. A command with no word at all
   * makes `partes[0]` raise outside the `try`, so it is excluded here.
   */
  function Step(accounts: map<string, Record>, command: string, parse: AmountParser): Outcome
    requires |Tokens(command)| >= 1
  {
    Dispatch(accounts, Tokens(command), parse)
  }

  // ---------------------------------------------------------------------
  // Reply texts
  // ---------------------------------------------------------------------

  /** The replies that report success. */
  predicate IsSuccess(r: Reply)
  {
    r.Created? || r.BalanceIs? || r.Deposited? || r.Withdrawn? || r.Transferred?
  }

  /** The tags every reply text opens with. */
  const SUCCEEDED: string := "[SUCESSO]"
  const FAILED: string := "[FALHA]"

  /** The text of a reply: its tag, then what it reports. */
  function Message(r: Reply, fmt: Amount -> string): string
  {
    (if IsSuccess(r) then SUCCEEDED else FAILED) + Detail(r, fmt)
  }

  /** What a reply reports after its tag; `fmt` stands for Python's `:.2f` formatting. */
  function Detail(r: Reply, fmt: Amount -> string): string
  {
    match r
    case CreateUsage => " Uso: CRIAR <senha>"
    case Created(id) => " Conta " + id + " criada com sucesso."
    case BalanceUsage => " Uso: SALDO <numero_da_conta>"
    case BalanceIs(id, balance) => " Saldo da conta " + id + ": R$ " + fmt(balance)
    case NotFound(id) => " Conta " + id + " nao encontrada."
    case DepositUsage => " Uso: DEPOSITAR <numero_da_conta> <valor>"
    case Deposited(amount, id) => " Deposito de R$ " + fmt(amount) + " realizado na conta " + id + "."
    case DepositNonPositive => " O valor do deposito deve ser positivo."
    case WithdrawUsage => " Uso: SACAR <numero_da_conta> <valor> <senha>"
    case WrongPassword => " Senha incorreta."
    case WithdrawNonPositive => " O valor do saque deve ser positivo."
    case Withdrawn(amount) => " Saque de R$ " + fmt(amount) + " realizado."
    case InsufficientFunds => " Saldo insuficiente."
    case TransferUsage => " Uso: TRANSFERIR <origem> <destino> <valor> <senha>"
    case NoSuchOrigin(id) => " Conta de origem " + id + " nao existe."
    case NoSuchDestination(id) => " Conta de destino " + id + " nao existe."
    case SameAccount => " Conta de origem e destino nao podem ser a mesma."
    case OriginWrongPassword => " Senha da conta de origem incorreta."
    case TransferNonPositive => " O valor da transferencia deve ser positivo."
    case OriginInsufficient => " Saldo insuficiente na conta de origem."
    case Transferred(amount, target) =>
      " Transferencia de R$ " + fmt(amount) + " para a conta " + target + " realizada."
    case UnknownCommand => " Comando desconhecido."
    case Malformed => " Comando invalido ou mal formatado. Verifique os argumentos."
  }
}
