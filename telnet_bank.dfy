/**
 * The command dispatcher of the Telnet bank server (`processar_comando` in
 * servidor-telnet.py) as a function of the state it reads: the account table
 * `contas`, the CPF index `cpf_para_conta` and the set of account numbers
 * with a live session (the keys of `conexoes_ativas`). Each call is one
 * atomic step: the source runs it under `contas_lock`.
 *
 * A command is split on `|`; its first field, upper-cased, selects the
 * operation. CRIAR and LOGIN need no session, every other operation needs
 * the caller's account number (`num_conta_logada`). The result is the
 * reply, a session transition and an optional notification for the
 * receiver of a transfer, with the new table and index.
 */
module TelnetBank {
  import opened Common
  import opened Text
  import opened Ledger

  /** The field separator of the wire protocol. */
  const SEP: char := '|'

  /** Length of an accepted CPF (the real document has 11 digits; the source uses 3). */
  const CPF_LENGTH: nat := 3

  datatype Account = Account(name: string, cpf: string, password: string, balance: Amount)

  /** `contas` (account number to record) and `cpf_para_conta` (CPF to account number). */
  datatype Bank = Bank(accounts: map<string, Account>, cpfIndex: map<string, string>)

  /** The second element of the triple: `NO_CHANGE`, `("LOGIN", num_conta, nome)` or `LOGOUT`. */
  datatype Transition = NoChange | LoggedIn(id: string, name: string) | LoggedOut

  /** The `(c_destino, mensagem)` pair a transfer returns for the receiver's connection. */
  datatype Notice = Notice(target: string, senderName: string, sender: string, amount: Amount)

  /** Every reply `processar_comando` can give; Message spells out the text. */
  datatype Reply =
    | CreateUsage | InvalidCpf | InvalidName | InvalidPassword | DuplicateCpf
    | Created(id: string, name: string)
    | LoginUsage | CpfNotNumeric | BadCredentials | AlreadyActive
    | Welcome(name: string, id: string)
    | NotLoggedIn
    | BalanceIs(balance: Amount)
    | DepositInvalid | NonPositiveAmount
    | Deposited(amount: Amount, balance: Amount)
    | InvalidAmount | WithdrawUsage | WrongPassword | InsufficientFunds
    | Withdrawn(amount: Amount, balance: Amount)
    | TransferUsage | DestinationNotNumeric | NoSuchDestination | SelfTransfer
    | Transferred(amount: Amount, targetName: string, target: string)
    | LoggedOutReply
    | UnknownCommand
    | ServerError(key: string)

  /** The response, the transition and the notification, with the bank after the step. */
  datatype Outcome = Outcome(bank: Bank, reply: Reply, transition: Transition, notice: Option<Notice>)

  // ---------------------------------------------------------------------
  // The table invariant
  // ---------------------------------------------------------------------

  /** What CRIAR checks of a CPF: all digits and of the configured length. */
  predicate ValidCpf(cpf: string)
  {
    IsDigits(cpf) && |cpf| == CPF_LENGTH
  }

  /** What CRIAR checks of a name or a password: non-empty and free of the separator. */
  predicate ValidText(s: string)
  {
    s != [] && SEP !in s
  }

  /** The checks CRIAR made of a record, and a balance that is not negative. */
  predicate WellFormed(a: Account)
  {
    ValidCpf(a.cpf) && ValidText(a.name) && ValidText(a.password) && a.balance >= 0.0
  }

  /** The account numbers in use are exactly those the creations so far handed out. */
  ghost predicate IdsIssued(b: Bank)
  {
    b.accounts.Keys == IssuedIds(|b.accounts|)
  }

  /** Every CPF in the index points to an account holding that CPF. */
  ghost predicate IndexSound(b: Bank)
  {
    forall c :: c in b.cpfIndex ==> b.cpfIndex[c] in b.accounts && b.accounts[b.cpfIndex[c]].cpf == c
  }

  /** Every account's CPF is in the index and points back to it. */
  ghost predicate IndexComplete(b: Bank)
  {
    forall id :: id in b.accounts ==> b.accounts[id].cpf in b.cpfIndex && b.cpfIndex[b.accounts[id].cpf] == id
  }

  ghost predicate RecordsWellFormed(b: Bank)
  {
    forall id :: id in b.accounts ==> WellFormed(b.accounts[id])
  }

  /**
   * The invariant of the account table: the numbers in use are exactly those
   * the creations handed out; the CPF index and the `cpf` fields of the
   * accounts are in bijection; every record passed CRIAR's checks; no
   * balance is negative.
   */
  ghost predicate Invariant(b: Bank)
  {
    IdsIssued(b) && IndexSound(b) && IndexComplete(b) && RecordsWellFormed(b)
  }

  /** Every account number in the index names an account (what LOGIN needs). */
  ghost predicate IndexClosed(b: Bank)
  {
    forall c :: c in b.cpfIndex ==> b.cpfIndex[c] in b.accounts
  }

  /** The money held by all accounts together. */
  ghost function Total(accounts: map<string, Account>): Amount
  {
    Sum(Project(accounts, BalanceOf))
  }

  function BalanceOf(a: Account): Amount
  {
    a.balance
  }

  /** A step that rejects the command: nothing changes and nobody is notified. */
  function Reject(b: Bank, reply: Reply): (r: Outcome)
    ensures r.bank == b && r.transition == NoChange && r.notice == None
  {
    Outcome(b, reply, NoChange, None)
  }

  // ---------------------------------------------------------------------
  // The operations
  // ---------------------------------------------------------------------

  /** `CRIAR|nome|cpf|senha` (lines 74-105). */
  function Create(b: Bank, fields: seq<string>): Outcome
  {
    if |fields| != 4 then Reject(b, CreateUsage)
    else
      var name, cpf, password := fields[1], fields[2], fields[3];
      if !ValidCpf(cpf) then Reject(b, InvalidCpf)
      else if !ValidText(name) then Reject(b, InvalidName)
      else if !ValidText(password) then Reject(b, InvalidPassword)
      else if cpf in b.cpfIndex then Reject(b, DuplicateCpf)
      else
        var id := AccountId(|b.accounts|);
        var accounts := b.accounts[id := Account(name, cpf, password, 0.0)];
        Outcome(Bank(accounts, b.cpfIndex[cpf := id]), Created(id, name), NoChange, None)
  }

  /** `LOGIN|cpf|senha` (lines 107-140); `active` is the key set of `conexoes_ativas`. */
  function Login(b: Bank, active: set<string>, fields: seq<string>): Outcome
    requires IndexClosed(b)
  {
    if |fields| != 3 then Reject(b, LoginUsage)
    else
      var cpf, password := fields[1], fields[2];
      if !IsDigits(cpf) then Reject(b, CpfNotNumeric)
      else if cpf !in b.cpfIndex then Reject(b, BadCredentials)
      else
        var id := b.cpfIndex[cpf];
        if id in active then Reject(b, AlreadyActive)
        else if b.accounts[id].password == password then
          var name := b.accounts[id].name;
          Outcome(b, Welcome(name, id), LoggedIn(id, name), None)
        else Reject(b, BadCredentials)
  }

  /** `SALDO` (lines 146-148); a missing caller account is the server's unexpected-error reply. */
  function Balance(b: Bank, id: string): Outcome
  {
    if id !in b.accounts then Reject(b, ServerError(id))
    else Reject(b, BalanceIs(b.accounts[id].balance))
  }

  /** `DEPOSITAR|valor` (lines 150-165). */
  function Deposit(b: Bank, id: string, fields: seq<string>, parse: AmountParser): Outcome
  {
    if |fields| < 2 || parse(fields[1]).None? then Reject(b, DepositInvalid)
    else
      var amount := parse(fields[1]).value;
      if amount <= 0.0 then Reject(b, NonPositiveAmount)
      else if id !in b.accounts then Reject(b, ServerError(id))
      else
        var a := b.accounts[id];
        var balance := a.balance + amount;
        Outcome(b.(accounts := b.accounts[id := a.(balance := balance)]),
                Deposited(amount, balance), NoChange, None)
  }

  /** `SACAR|valor|senha` (lines 167-190). */
  function Withdraw(b: Bank, id: string, fields: seq<string>, parse: AmountParser): Outcome
  {
    if |fields| < 3 then Reject(b, WithdrawUsage)
    else if parse(fields[1]).None? then Reject(b, InvalidAmount)
    else
      var amount, password := parse(fields[1]).value, fields[2];
      if id !in b.accounts then Reject(b, ServerError(id))
      else
        var a := b.accounts[id];
        if a.password != password then Reject(b, WrongPassword)
        else if amount <= 0.0 then Reject(b, NonPositiveAmount)
        else if a.balance < amount then Reject(b, InsufficientFunds)
        else
          var balance := a.balance - amount;
          Outcome(b.(accounts := b.accounts[id := a.(balance := balance)]),
                  Withdrawn(amount, balance), NoChange, None)
  }

  /** The accounts after `amount` moves from `id` to `target`. */
  function Moved(accounts: map<string, Account>, id: string, target: string, amount: Amount): map<string, Account>
    requires id in accounts && target in accounts
  {
    accounts[id := accounts[id].(balance := accounts[id].balance - amount)]
            [target := accounts[target].(balance := accounts[target].balance + amount)]
  }

  /** `TRANSFERIR|destino|valor|senha` (lines 192-233). */
  function Transfer(b: Bank, id: string, fields: seq<string>, parse: AmountParser): Outcome
  {
    if |fields| < 4 then Reject(b, TransferUsage)
    else if parse(fields[2]).None? then Reject(b, InvalidAmount)
    else
      var target, amount, password := fields[1], parse(fields[2]).value, fields[3];
      if !IsDigits(target) then Reject(b, DestinationNotNumeric)
      else if target !in b.accounts then Reject(b, NoSuchDestination)
      else if target == id then Reject(b, SelfTransfer)
      else if id !in b.accounts then Reject(b, ServerError(id))
      else
        var from, to := b.accounts[id], b.accounts[target];
        if from.password != password then Reject(b, WrongPassword)
        else if amount <= 0.0 then Reject(b, NonPositiveAmount)
        else if from.balance < amount then Reject(b, InsufficientFunds)
        else
          Outcome(b.(accounts := Moved(b.accounts, id, target, amount)), Transferred(amount, to.name, target), NoChange,
                  Some(Notice(target, from.name, id, amount)))
  }

  /**
   * `LOGOUT` (lines 235-238). The transition is set before the account is
   * looked up for the log line, so it is `LOGOUT` even when that lookup fails.
   */
  function Logout(b: Bank, id: string): Outcome
  {
    if id !in b.accounts then Outcome(b, ServerError(id), LoggedOut, None)
    else Outcome(b, LoggedOutReply, LoggedOut, None)
  }

  /** The command keywords, recognised case-insensitively. */
  datatype Op = Criar | LoginOp | Saldo | Depositar | Sacar | Transferir | LogoutOp | Unknown

  /** `operacao = partes[0].upper()` and the chain of comparisons that follows it. */
  function Keyword(word: string): Op
  {
    var op := Upper(word);
    if op == "CRIAR" then Criar
    else if op == "LOGIN" then LoginOp
    else if op == "SALDO" then Saldo
    else if op == "DEPOSITAR" then Depositar
    else if op == "SACAR" then Sacar
    else if op == "TRANSFERIR" then Transferir
    else if op == "LOGOUT" then LogoutOp
    else Unknown
  }

  /** The dispatch on the already split command (lines 69-245). */
  function Dispatch(b: Bank, active: set<string>, fields: seq<string>, logged: Option<string>,
                    parse: AmountParser): Outcome
    requires |fields| >= 1 && IndexClosed(b)
  {
    var op := Keyword(fields[0]);
    if op.Criar? then Create(b, fields)
    else if op.LoginOp? then Login(b, active, fields)
    else if logged.None? then Reject(b, NotLoggedIn)
    else
      var id := logged.value;
      if op.Saldo? then Balance(b, id)
      else if op.Depositar? then Deposit(b, id, fields, parse)
      else if op.Sacar? then Withdraw(b, id, fields, parse)
      else if op.Transferir? then Transfer(b, id, fields, parse)
      else if op.LogoutOp? then Logout(b, id)
      else Reject(b, UnknownCommand)
  }

  /** `partes = comando.strip().split('|')` (line 68). */
  function Fields(command: string): (fields: seq<string>)
    ensures |fields| >= 1
  {
    Split(Strip(command), SEP)
  }

  /** One call of `processar_comando(comando, num_conta_logada)`. */
  function Step(b: Bank, active: set<string>, command: string, logged: Option<string>,
                parse: AmountParser): Outcome
    requires IndexClosed(b)
  {
    Dispatch(b, active, Fields(command), logged, parse)
  }

  // ---------------------------------------------------------------------
  // Session bookkeeping of handle_client
  // ---------------------------------------------------------------------

  /** Python's truth value of `num_conta_logada`: set and non-empty. */
  predicate IsSet(logged: Option<string>)
  {
    logged.Some? && logged.value != []
  }

  /** The live sessions after a LOGIN command's transition is acted on (lines 325-328). */
  function Registered(active: set<string>, t: Transition): set<string>
  {
    if t.LoggedIn? then active + {t.id} else active
  }

  /** The live sessions after the connection's account is removed (lines 384-389 and 419-423). */
  function Deregistered(active: set<string>, logged: Option<string>): set<string>
  {
    if IsSet(logged) then active - {logged.value} else active
  }

  // ---------------------------------------------------------------------
  // Reply texts
  // ---------------------------------------------------------------------

  /** The text of a reply; `fmt` stands for Python's `:.2f` formatting. */
  function Message(r: Reply, fmt: Amount -> string): string
  {
    match r
    case CreateUsage => "[IFBANK] Formato incorreto. Use: CRIAR|Nome Completo|CPF|Senha"
    case InvalidCpf => "[IFBANK] CPF inválido. Deve conter 11 números."
    case InvalidName => "[IFBANK] Nome inválido. Não pode estar vazio ou conter '|'."
    case InvalidPassword => "[IFBANK] Senha inválida. Não pode estar vazia ou conter '|'."
    case DuplicateCpf => "[IFBANK] CPF já cadastrado."
    case Created(id, name) => "[IFBANK] Conta " + id + " criada para " + name + "."
    case LoginUsage => "[IFBANK] Formato: LOGIN|CPF|Senha"
    case CpfNotNumeric => "[IFBANK] Formato de CPF inválido. Use apenas números."
    case BadCredentials => "[IFBANK] CPF ou senha incorretos."
    case AlreadyActive => "[IFBANK] Essa conta já foi acessada em outra sessão."
    case Welcome(name, id) => "[IFBANK]|" + name + "|" + id
    case NotLoggedIn => "[IFBANK] Você precisa estar logado para esta operação."
    case BalanceIs(balance) => "[IFBANK] Saldo: R$ " + fmt(balance)
    case DepositInvalid => "[IFBANK] Valor inválido. Formato: DEPOSITAR|Valor"
    case NonPositiveAmount => "[IFBANK] O valor deve ser positivo."
    case Deposited(amount, balance) =>
      "[IFBANK] Depósito de R$ " + fmt(amount) + " realizado. Novo saldo: R$ " + fmt(balance)
    case InvalidAmount => "[IFBANK] Valor inválido. Use apenas números para o valor."
    case WithdrawUsage => "[IFBANK] Formato incorreto. Use: SACAR|Valor|Senha"
    case WrongPassword => "[IFBANK] Senha incorreta."
    case InsufficientFunds => "[IFBANK] Saldo insuficiente."
    case Withdrawn(amount, balance) =>
      "[SUCIFBANKESSO] Saque de R$ " + fmt(amount) + " realizado. Novo saldo: R$ " + fmt(balance)
    case TransferUsage => "[IFBANK] Formato incorreto. Use: TRANSFERIR|ContaDestino|Valor|Senha"
    case DestinationNotNumeric => "[IFBANK] Número da conta de destino deve ser numérico."
    case NoSuchDestination => "[IFBANK] Conta de destino não existe."
    case SelfTransfer => "[IFBANK] Não pode transferir para si mesmo."
    case Transferred(amount, targetName, target) =>
      "[IFBANK] Transferência de R$ " + fmt(amount) + " para " + targetName + " (Conta: " + target + ") realizada."
    case LoggedOutReply => "[IFBANK] Você saiu da sua conta."
    case UnknownCommand => "[IFBANK] Comando desconhecido."
    case ServerError(key) => "[FALHA] Erro inesperado no servidor: '" + key + "'"
  }

  /** The text pushed to the receiver of a transfer (line 230). */
  function NoticeText(n: Notice, fmt: Amount -> string): string
  {
    "[IFBANK] Você recebeu uma transferência de " + n.senderName + " (Conta: " + n.sender
      + ") no valor de R$ " + fmt(n.amount) + "."
  }
}
