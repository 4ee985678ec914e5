# IFBank command dispatchers, modelled in Dafny

This project models the core of the IFBank servers: the functions that
turn one text command into a reply and a change to the bank's tables.

- **The Telnet server** (`servidor-telnet.py`) keeps three tables:
  - `contas`, account number to holder name, CPF, password and balance;
  - `cpf_para_conta`, CPF to account number;
  - `conexoes_ativas`, the accounts that have a live session.
  - Its dispatcher `processar_comando(comando, num_conta_logada)` splits a command on `|`. The upper-cased first field selects one of CRIAR, LOGIN, SALDO, DEPOSITAR, SACAR, TRANSFERIR or LOGOUT.
  - It answers with a reply, a session transition (`NO_CHANGE`, `LOGIN` or `LOGOUT`) and, after a transfer, a notice for the receiving account.
  - `handle_client` registers an account in `conexoes_ativas` after a LOGIN succeeds, and removes it when the session ends.
  - `receber_input` strips Telnet IAC sequences from the received bytes.
- **The earlier server** (`servidor.py`) keeps only `contas` (balance and password) and has no sessions.
  - Its `processar_comando(comando)` splits a command on white space.
  - Every operation names its account, and the password where it needs one.
  - Each reply starts with `[SUCESSO]` or `[FALHA]`.

## How the project is laid out

Each dispatcher appears twice:
1. **As functions of the state.** `TelnetBank.Step` and `PlainBank.Step` give the whole outcome of one call.
2. **As a class** that updates the state in place, as the Python code does: `TelnetServer.Server` and `PlainServer.Server`.
   - Every method's postcondition equates the reply and the new fields with the function's outcome on the old fields.
   - The lemmas in `TelnetProperties` and `PlainProperties` then state what the source promises about those functions:
     - checks fire in the source's order;
     - a rejection changes nothing;
     - balances stay non-negative;
     - transfers conserve the total;
     - account numbers are fresh;
     - the CPF index stays in bijection with the accounts;
     - in sequential use, LOGIN is refused for an account that already has a live session.

Shared pieces:
- `Text` models the Python string operations used: `strip`, `split('|')`, `split()`, `upper`, `isdigit` and `str(n)`.
- `Ledger` holds the account-number scheme `str(len(contas) + 100)` and the sum of the balances.
- `TelnetInput` holds the IAC filter, as a loop proved against a recursive definition.

Abstractions:
- Amounts are exact numbers (`real`).
- Python's `float(text)` is a parameter `parse` of type `string -> Option<real>`; `None` means `ValueError`.
- The `:.2f` formatting in reply texts is a parameter `fmt`.
- Each `processar_comando` call runs under `contas_lock`, and each registration or removal of a live session runs under `conexoes_lock`. Each of these is one atomic step here.

### Behaviour of the code worth knowing (the model follows the code)

- **A failed LOGIN can reveal that a CPF is registered.**
  - The code checks for a live session (lines 124-128) before it checks the password.
  - So a CPF whose account is logged in elsewhere gets "Essa conta já foi acessada em outra sessão", whatever the password. An unknown CPF gets "CPF ou senha incorretos". `TelnetProperties.LoginRevealsActiveCpf` states this.
  - An unknown CPF and a wrong password do get the same reply (`TelnetProperties.LoginFailuresLookAlike`).
- **The session check and the registration are two separate steps.**
  - LOGIN tests `conexoes_ativas` under `conexoes_lock` inside `processar_comando` (lines 124-128).
  - `handle_client` enters the session later, after sending the reply, and takes `conexoes_lock` again without testing again (lines 321-328).
  - So two connections that log in to one account at the same time can both pass the test. The second registration then overwrites the first, and the first removal leaves the other connection logged in with no entry. The model does not capture this (see "## Left out").
- **The CPF message and the CPF check disagree.** The CPF rejection text says "Deve conter 11 números", but the check demands exactly 3 digits (line 83). The model uses 3 (`TelnetBank.CPF_LENGTH`).
- **The sender's transfer reply shows no new balance.** It names only the amount, the receiver's name and the receiver's account (line 233). SACAR and DEPOSITAR do report the new balance.
- **The Telnet replies carry no success or failure tag.** Successes and failures alike open with `[IFBANK]`, so the tag tells a client nothing about the outcome. Two replies differ:
  - the success reply of SACAR is tagged `[SUCIFBANKESSO]` (line 190);
  - the internal error reply is tagged `[FALHA]` (line 245).
  - `TelnetBank.Message` keeps both texts as written.
- **A missing logged-in account.** A `KeyError` from such an account inside the outer `try` (lines 145-245) becomes the reply `[FALHA] Erro inesperado no servidor: '<num>'` (`ServerError`). LOGOUT sets its transition before the failing `print`, so it still logs the user out (line 236).

## Model

| member | source | states |
|---|---|---|
| TelnetServer.Server.constructor | servidor-telnet.py:36-38 | a server starting without a saved table has no accounts, no CPFs and no sessions, and satisfies the invariant |
| TelnetServer.Server.ProcessCommand | servidor-telnet.py:67-245 | one call updates `contas` and `cpf_para_conta` in place; the reply, transition, notice and new tables are exactly those of `TelnetBank.Step` on the old tables; the table invariant is kept and each live session still names an existing account |
| TelnetServer.Server.DispatchFields | servidor-telnet.py:69-245 | the keyword dispatch on the split command, done in place, equals `TelnetBank.Dispatch`, covering CRIAR and LOGIN without a session, the "must be logged in" refusal, the five logged-in operations and the unknown command |
| TelnetServer.Server.CreateAccount | servidor-telnet.py:74-105 | CRIAR's checks and in-place insertion of the record and the CPF equal `TelnetBank.Create` |
| TelnetServer.Server.CheckLogin | servidor-telnet.py:107-140 | LOGIN reads the tables and the live sessions only; reply and transition equal `TelnetBank.Login` |
| TelnetServer.Server.DepositInto | servidor-telnet.py:150-165 | DEPOSITAR's parse, sign check and in-place credit equal `TelnetBank.Deposit` |
| TelnetServer.Server.WithdrawFrom | servidor-telnet.py:167-190 | SACAR's checks and in-place debit equal `TelnetBank.Withdraw` |
| TelnetServer.Server.TransferFrom | servidor-telnet.py:192-233 | TRANSFERIR's checks, the debit then credit in place, the reply and the notice equal `TelnetBank.Transfer` |
| TelnetServer.Server.AccessAccount | servidor-telnet.py:315-328 | menu option 1 runs the LOGIN command built from the typed CPF and password, without a session. The reply is LOGIN's answer. The connection gets an account exactly when LOGIN made the `LOGIN` transition; that account is the transition's, and it had no live session before. It is the only one added to the live sessions. All invariants are kept |
| TelnetServer.Server.OpenSession | servidor-telnet.py:322-328 | the same, for an already split LOGIN command |
| TelnetServer.Server.Register | servidor-telnet.py:325-328 | a `LOGIN` transition adds its account to the live sessions, any other transition changes nothing; a state that was valid stays valid |
| TelnetServer.Server.EndSession | servidor-telnet.py:384-389 | leaving the logged-in menu (and, identically, the `finally` at lines 419-423) removes the connection's account from the live sessions when it has one, and leaves the connection without an account; validity is kept |
| TelnetProperties.CreateOutcome | servidor-telnet.py:74-102 | CRIAR creates exactly when there are four fields, a 3-digit CPF, non-empty name and password free of the separator, and an unregistered CPF. The new number `len(contas)+100` is fresh and the record starts at balance 0.0. The CPF is entered in the index, other accounts are kept and the total is unchanged. Any rejection changes nothing |
| TelnetProperties.CreateCheckOrder | servidor-telnet.py:76-93 | the CRIAR rejections fire in the order field count, CPF, name, password, duplicate CPF |
| TelnetProperties.SeparatorChecksOnlyCatchEmpty | servidor-telnet.py:85-88 | fields come from splitting on the separator, so the "contains the separator" half of the name and password checks can never fire: those rejections mean an empty field |
| TelnetProperties.CreatePreservesInvariant | servidor-telnet.py:95-97 | CRIAR keeps the table invariant (numbers issued in order, CPF index in bijection with the accounts, well-formed records, non-negative balances) |
| TelnetProperties.AddAccountPreservesInvariant | servidor-telnet.py:95-97 | entering a well-formed record under the next number with an unregistered CPF keeps the invariant |
| TelnetProperties.LoginReadsOnly | servidor-telnet.py:107-140 | LOGIN never changes the tables and never produces a notice |
| TelnetProperties.LoginOutcome | servidor-telnet.py:107-140 | LOGIN opens a session exactly when there are three fields, the CPF is digits and registered, its account has no live session and the password matches; the transition then names that account and holder, otherwise it is `NO_CHANGE` |
| TelnetProperties.LoginFailuresLookAlike | servidor-telnet.py:118-138 | an unknown CPF and a wrong password get the same reply and change nothing |
| TelnetProperties.LoginActiveRejected | servidor-telnet.py:124-128 | an account with a live session cannot be logged into, whatever the password |
| TelnetProperties.LoginRevealsActiveCpf | servidor-telnet.py:118-138 | a registered CPF whose account is logged in gets a reply different from an unknown CPF's |
| TelnetProperties.WelcomeSplits | servidor-telnet.py:134 | for a name without the separator, the login reply (tag, name and number joined by the separator) splits back into exactly tag, name and number |
| TelnetProperties.NotLoggedInRefused | servidor-telnet.py:142-143 | without a session every keyword other than CRIAR and LOGIN is refused and changes nothing |
| TelnetProperties.BalanceReadsOnly | servidor-telnet.py:146-148 | SALDO reports the caller's balance and changes nothing |
| TelnetProperties.DepositOutcome | servidor-telnet.py:150-165 | DEPOSITAR succeeds exactly when the amount parses and is positive; it then adds exactly that amount to the caller's balance only, reports the new balance and raises the total by the amount; otherwise nothing changes |
| TelnetProperties.WithdrawOutcome | servidor-telnet.py:167-190 | SACAR rejects in order: fewer than three fields (usage line), an unparsable amount, a missing caller account, wrong password, non-positive amount, insufficient balance. It succeeds exactly when none applies, then takes exactly the amount from the caller only, keeps the balance non-negative and lowers the total by the amount; any failure changes nothing |
| TelnetProperties.TransferCheckOrder | servidor-telnet.py:192-215 | TRANSFERIR rejects in the order: fewer than four fields (usage line), unparsable amount, destination not numeric, destination missing, own account, missing caller account, wrong password, non-positive amount, insufficient balance |
| TelnetProperties.TransferOutcome | servidor-telnet.py:192-233 | a transfer moves money exactly when every check passes. The caller loses the amount and stays non-negative, the receiver gains it, other accounts and the index are kept, and the total is conserved. A notice goes to the receiver with the sender's name, number and the amount. Otherwise nothing changes and there is no notice |
| TelnetProperties.MovedConserves | servidor-telnet.py:217-218 | debiting one account and crediting another by the same amount conserves the total and touches nothing else |
| TelnetProperties.LogoutOutcome | servidor-telnet.py:235-238 | LOGOUT asks for the session to end and changes no table |
| TelnetProperties.DispatchBank | servidor-telnet.py:73-245 | a dispatch changes the tables only as CRIAR, DEPOSITAR, SACAR or TRANSFERIR does |
| TelnetProperties.StepPreservesInvariant | servidor-telnet.py:67-245 | every command keeps the table invariant |
| TelnetProperties.StepNeverForgets | servidor-telnet.py:67-245 | no command removes an account or changes a CPF registration |
| TelnetProperties.StepLoginOnlyNew | servidor-telnet.py:107-140 | a `LOGIN` transition only ever names an existing account without a live session |
| TelnetProperties.SingleSession | servidor-telnet.py:124-128 | in sequential use, after a successful LOGIN is registered, another LOGIN for the same CPF is refused; once the session is removed the first LOGIN is answered as before |
| TelnetProperties.RegisteredWithinAccounts | servidor-telnet.py:325-328 | registering the outcome of LOGIN keeps every live session on an existing account |
| TelnetProperties.DeregisterIdempotent | servidor-telnet.py:384-389 | removing a session twice is removing it once, and removing an absent one changes nothing |
| TelnetProperties.LoginCommandSelectsLogin | servidor-telnet.py:321 | the command built from a typed CPF and password always has `LOGIN` as first field and selects LOGIN, whatever was typed |
| TelnetProperties.StepOfLogin | servidor-telnet.py:107-140 | a command whose first field selects LOGIN is answered by LOGIN on its fields, whatever the session |
| TelnetInput.FilterIac | servidor-telnet.py:268-276 | the loop's output equals the recursive definition `StripIac`, is no longer than the input and contains no IAC byte |
| TelnetInput.StripIacShorter | servidor-telnet.py:268-276 | the filtered data is never longer than the received data |
| TelnetInput.StripIacHasNoIac | servidor-telnet.py:268-276 | no 0xFF byte survives the filter |
| TelnetInput.StripIacIdentity | servidor-telnet.py:257-262 | data without IAC passes the filter unchanged, so the shortcut for IAC-free data agrees with the loop |
| TelnetInput.StripIacDropsCommand | servidor-telnet.py:270-276 | an IAC and the two bytes after it are dropped, IAC-free bytes before it are kept and the scan resumes after them |
| TelnetInput.StripIacDropsTruncated | servidor-telnet.py:270-276 | an IAC sequence cut short by the end of the data drops all of its remainder |
| TelnetInput.StripIacSubsequence | servidor-telnet.py:268-276 | the kept bytes are a subsequence of the input: nothing is reordered or invented |
| Text.TrimStart | servidor-telnet.py:68 | leading white space removed: the result is a suffix, all dropped characters are white space, and it does not start with white space |
| Text.TrimEnd | servidor-telnet.py:68 | the same for trailing white space |
| Text.Split | servidor-telnet.py:68 | splitting on the separator gives at least one field and no field contains the separator |
| Text.JoinSplit | servidor-telnet.py:68 | joining the fields of a split with the separator gives back the split string |
| Text.SplitJoin | servidor-telnet.py:68 | splitting the join of separator-free fields gives back those fields |
| Text.WordsAreWords | servidor.py:44 | every element of `split()` is a non-empty run of non-space characters |
| Text.WordsEmpty | servidor.py:44 | `split()` gives no word exactly when the string is all white space |
| Text.WordsKeepNonSpace | servidor.py:44 | the words of `split()`, concatenated in order, are exactly the non-space characters of the string |
| Text.WordsOfJoin | servidor.py:44 | `split()` of non-empty, space-free words joined by single spaces gives those words back |
| Text.WordsSkipBlank | servidor.py:44 | leading white space of any kind and length does not change `split()` |
| Text.WordsOfLeadingWord | servidor.py:44 | for white space, then a word, then nothing or text starting with white space, `split()` gives that word followed by the words of the rest; with WordsEmpty this fixes `split()` on every string, cutting at each white-space run of any characters and length and nowhere else |
| Text.StripBlank | servidor.py:44 | `strip()` leaves a blank string exactly when the string was blank |
| Text.DigitsValueOfNatToString | servidor-telnet.py:95 | `str(n)` writes digits that read back as `n` |
| Text.NatToStringInjective | servidor-telnet.py:95 | distinct numbers give distinct account-number strings |
| Ledger.FreshId | servidor-telnet.py:95 | when the table holds exactly the numbers issued so far, `str(len(contas)+100)` is not among them, and it is the one number the next creation adds |
| PlainServer.Server.constructor | servidor.py:18 | a server starting with an empty `contas` satisfies the invariant |
| PlainServer.Server.ProcessCommand | servidor.py:43-131 | one call updates `contas` in place; the reply and new table equal `PlainBank.Step` on the old table, and the invariant is kept |
| PlainServer.Server.DispatchWords | servidor.py:45-131 | the keyword dispatch on the words of the command, done in place, equals `PlainBank.Dispatch` |
| PlainServer.Server.CreateAccount | servidor.py:49-57 | CRIAR's in-place insertion equals `PlainBank.Create` |
| PlainServer.Server.DepositInto | servidor.py:69-83 | DEPOSITAR's checks and in-place credit equal `PlainBank.Deposit` |
| PlainServer.Server.WithdrawFrom | servidor.py:85-104 | SACAR's checks and in-place debit equal `PlainBank.Withdraw` |
| PlainServer.Server.TransferBetween | servidor.py:106-123 | TRANSFERIR's checks, the debit then credit in place, equal `PlainBank.Transfer` |
| PlainProperties.WrongArityIsUsage | servidor.py:49-126 | a known keyword with the wrong word count gets its own usage line whatever the words are, and an unknown keyword gets "Comando desconhecido"; both leave the table unchanged |
| PlainProperties.KeywordIgnoresCase | servidor.py:45 | a first word and its upper-cased form select the same operation |
| PlainProperties.CreateOutcome | servidor.py:49-57 | CRIAR creates exactly when it has one argument, with no other check. The new number `len(contas)+100` is fresh, the record is balance 0.0 with the given password, the numbers stay those issued in order, the others are kept and the total is unchanged. Otherwise it gives the usage line and changes nothing |
| PlainProperties.CreatePreservesInvariant | servidor.py:53-54 | CRIAR keeps the invariant: numbers issued in order and no negative balance |
| PlainProperties.BalanceReadsOnly | servidor.py:59-67 | SALDO never changes the table; it reports the named account's balance when it exists and "nao encontrada" otherwise |
| PlainProperties.DepositOutcome | servidor.py:69-83 | DEPOSITAR checks in this order: the amount parses, else "mal formatado"; the account exists; the amount is positive. It succeeds exactly when the account exists and the amount is positive, then adds exactly the amount to that account only and raises the total by it. Any failure changes nothing |
| PlainProperties.WithdrawOutcome | servidor.py:85-104 | SACAR demands four words (usage line otherwise), then checks in order: parse, account exists, password, positive amount, balance ≥ amount. It succeeds exactly when all hold, then takes exactly the amount from that account only, keeps it non-negative and lowers the total by it. Any failure changes nothing |
| PlainProperties.TransferCheckOrder | servidor.py:110-117 | TRANSFERIR checks in order: parse, origin exists, destination exists, distinct accounts, origin password, positive amount, sufficient balance |
| PlainProperties.TransferOutcome | servidor.py:106-123 | a transfer moves money exactly when every check passes. The origin loses the amount and stays non-negative, the destination gains it, others are kept and the total is conserved. Otherwise the table is unchanged |
| PlainProperties.MoveConserves | servidor.py:119-120 | debiting the origin then crediting a distinct destination conserves the total and touches nothing else |
| PlainProperties.DispatchChanges | servidor.py:47-131 | a failed command leaves the table unchanged, no command removes an account, and only CRIAR adds one |
| PlainProperties.DispatchPreservesInvariant | servidor.py:47-131 | every command keeps the invariant, so creations starting from an empty table never overwrite an account |
| PlainProperties.TokensEmpty | servidor.py:44-45 | `comando.strip().split()` has a first word, as `partes[0]` needs, exactly when the command is not all white space |
| PlainProperties.StepPreservesInvariant | servidor.py:43-131 | the same for the unsplit command |
| PlainProperties.MessageTag | servidor.py:51-129 | every success reply starts with `[SUCESSO]`, every other reply starts with `[FALHA]` |
| PlainProperties.MessageTellsSuccess | servidor.py:51-129 | a reply text starts with `[SUCESSO]` exactly when the operation succeeded |

## Left out

- Sockets, `recv`/`sendall`, threads and the two locks. Each `processar_comando` call and each registration or removal of a live session is modelled as one atomic step, which is what the locks give. The notice is returned, not delivered: `enviar_notificacao` is I/O.
- Persistence (`carregar_contas`, `salvar_contas`) and logging (`log_transacao`, `print`). They are I/O. Both servers start from an empty table, the case where no saved file exists.
  - A table loaded from JSON may hold numbers that `len(contas)+100` collides with. That case is not modelled.
  - The `except Exception` of `servidor.py` (line 130) catches I/O errors of `log_transacao` and `salvar_contas`. After a CRIAR, DEPOSITAR, SACAR or TRANSFERIR that succeeded, it fires with the table already changed. On SACAR's insufficient-funds path (line 101) it fires with the table unchanged. Either way the reply is "Erro inesperado no servidor". It is not modelled.
- Floating point. Amounts are exact reals:
  - no rounding;
  - no `inf` or `nan`, which `float()` accepts. A `nan` amount fares differently per server and operation:
    - `servidor.py` DEPOSITAR tests `valor > 0` (line 75) and refuses it;
    - `servidor.py` SACAR tests `saldo >= valor` (line 95) and refuses it as insufficient funds;
    - `servidor.py` TRANSFERIR tests `valor <= 0` and `saldo < valor` (lines 116-117), both false, so the transfer goes through;
    - `servidor-telnet.py` DEPOSITAR tests only `valor <= 0` (line 157) and accepts it;
    - `servidor-telnet.py` SACAR and TRANSFERIR test `valor <= 0` and `saldo < valor` (lines 179-181, 211-213) and accept it.
  - no `:.2f` rounding, which is the parameter `fmt`.
  - `float()` is the parameter `parse`.
- Unicode beyond the command words.
  - `isdigit` is ASCII digits only; Python also accepts other Unicode digits.
  - `upper` maps ASCII letters, U+0131 and U+017F. Python's full mapping, including expansions like `ß` → `SS`, gives the same keyword decision for every command name.
  - UTF-8 decoding in `receber_input` and in `servidor.py`'s `handle_client` is not modelled.
  - The menu texts and prompts of `handle_client` are not modelled.
- The quoting of the key in the `KeyError` text: `ServerError` uses `'<key>'` as `repr` gives for plain keys.
- TelnetServer.Server.ProcessCommand: requires the CPF index to name only existing accounts (`IndexClosed`, part of `Valid`). LOGIN reads `contas[num_conta]` (line 130) outside any handler that catches `KeyError` (the `try` at line 108 catches only `IndexError`, line 139), so a dangling index entry would crash the connection; the invariant rules this out.
- PlainServer.Server.ProcessCommand: requires the command to have at least one word. For a blank command `partes[0]` (line 45) raises `IndexError` outside the `try`, and `handle_client` does not catch it, so that connection ends.
- TelnetServer.Server.AccessAccount: runs LOGIN's live-session test and the registration as one uninterrupted step, while the source runs them in two separate critical sections (lines 124-128 and 327-328). Two concurrent LOGINs for one account can therefore both open a session in the source; the later registration overwrites the earlier, and the first removal (lines 384-388 or 419-423) leaves the other session without an entry, so a third LOGIN is accepted too. `TelnetProperties.SingleSession` holds only for sequential use.
- TelnetServer.Server.AccessAccount: states its result against LOGIN on the split command, not against `Step`. `TelnetProperties.LoginCommandSelectsLogin` and `TelnetProperties.StepOfLogin` show that the two agree.
- `cliente.py` is not part of this model: it is a client and only sends these commands.
