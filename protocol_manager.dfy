/**
 * The command interpreter of the key-value server: `run_command` and the
 * two protocol handlers of source/protocol_manager.c.
 *
 * A handler receives the client's line in the caller's buffer, asks the
 * (external) parser for a command, makes at most one store call under the
 * store mutex, overwrites the buffer with the reply line and returns what
 * the session should do next.  The pure functions `DataStep`, `ControlStep`
 * and `RunCommandStep` state that decision; the methods of the same names
 * perform it on the shared `Kv.Store` and are proved to agree with them.
 */
module ProtocolManager {
  import opened Wrappers
  import opened Decimal
  import opened Kv

  /** enum RETURN_TYPE: what the session loop does after a reply. */
  datatype ReturnType = RSuccess | RDeath | RShutdown | RError

  /** The job type that selects the protocol; any other value of the C int is UnknownType. */
  datatype SocketType = Data | Control | UnknownType(code: int)

  /** enum CONTROL_CMD as returned by parse_c; COther stands for any further value. */
  datatype ControlCmd = CCount | CShutdown | CError | COther(code: int)

  /** enum DATA_CMD as returned by parse_d, with the key and text it extracted. */
  datatype DataCmd =
    | DCount
    | DExists(key: string)
    | DGet(key: string)
    | DPut(key: string, text: string)
    | DDelete(key: string)
    | DEnd
    | DErrOl
    | DErrInvalid
    | DErrShort
    | DErrLong
    | DOther(code: int)

  /** The parser of parser.h is not part of this model: it is given as two functions. */
  datatype Parser = Parser(parseC: string -> ControlCmd, parseD: string -> DataCmd)

  /** What one command does: the buffer's new content, the return code and the store's new content. */
  datatype Step = Step(message: string, rc: ReturnType, items: map<string, string>)

  const GOODBYE := "Goodbye.\n"
  const TOO_LONG_LINE := "Error, can't find EOL, line too long.\n"
  const INVALID := "Error, command not found.\n"
  const TOO_SHORT := "Error, command too short.\n"
  const TOO_LONG := "Error, command too long.\n"
  const NOT_FOUND := "Command not found.\n"
  const SUCCESS := "Success.\n"
  const NO_SUCH_KEY := "No such key.\n"
  const SHUTTING_DOWN := "Shutting down.\n"
  const STORE_ERROR := "Error storing key.\n"
  const NO_KEY_FOUND := "Error, no key found.\n"

  // ---------------------------------------------------------------------
  // The decision each handler takes, as functions of the parsed command.
  // ---------------------------------------------------------------------

  /** The store call the CONTROL handler makes for a command. */
  function ControlCall(cmd: ControlCmd): Option<StoreCall> {
    if cmd.CCount? then Some(StoreCall.CountItems) else None
  }

  /** parse_message_with_control_protocol, given the parsed command and the buffer. */
  function ControlStep(cmd: ControlCmd, message: string, items: map<string, string>): Step {
    match cmd
    case CError =>
      if |message| == 0 then Step(GOODBYE, RDeath, items)
      else Step(NOT_FOUND, RSuccess, items)
    case CShutdown => Step(SHUTTING_DOWN, RShutdown, items)
    case CCount => Step(FormatInt(|items|) + "\n", RSuccess, items)
    case COther(_) => Step(message, RSuccess, items)
  }

  /** The store call the DATA handler makes for a command. */
  function DataCall(cmd: DataCmd): Option<StoreCall> {
    match cmd
    case DCount => Some(StoreCall.CountItems)
    case DExists(key) => Some(StoreCall.ItemExists(key))
    case DGet(key) => Some(StoreCall.FindValue(key))
    case DPut(key, text) => Some(StoreCall.CreateItem(key, text))
    case DDelete(key) => Some(StoreCall.DeleteItem(key))
    case _ => None
  }

  /** parse_message_with_data_protocol, given the parsed command. */
  function DataStep(cmd: DataCmd, items: map<string, string>, policy: StorePolicy): Step {
    match cmd
    case DCount => Step(FormatInt(|items|) + "\n", RSuccess, items)
    case DExists(key) => Step(FormatInt(ExistsFlag(items, key)) + "\n", RSuccess, items)
    case DGet(key) =>
      Step(match Find(items, key) case None => NO_SUCH_KEY case Some(v) => v + "\n", RSuccess, items)
    case DPut(key, text) =>
      var status := policy.create(items, key, text);
      Step(if status == 0 then SUCCESS else STORE_ERROR, RSuccess,
           AfterCreate(items, key, text, status))
    case DDelete(key) =>
      var status := policy.delete(items, key);
      Step(if status == 0 then SUCCESS else NO_KEY_FOUND, RSuccess,
           AfterDelete(items, key, status))
    case DEnd => Step(GOODBYE, RDeath, items)
    case DErrOl => Step(TOO_LONG_LINE, RSuccess, items)
    case DErrInvalid => Step(INVALID, RSuccess, items)
    case DErrShort => Step(TOO_SHORT, RSuccess, items)
    case DErrLong => Step(TOO_LONG, RSuccess, items)
    case DOther(_) => Step(NOT_FOUND, RSuccess, items)
  }

  /** run_command: the handler chosen by the job type; other types give R_ERROR. */
  function RunCommandStep(kind: SocketType, message: string, parser: Parser,
                          items: map<string, string>, policy: StorePolicy): Step
  {
    match kind
    case Data => DataStep(parser.parseD(message), items, policy)
    case Control => ControlStep(parser.parseC(message), message, items)
    case UnknownType(_) => Step(message, RError, items)
  }

  /** The store call run_command makes, if any. */
  function RunCommandCall(kind: SocketType, message: string, parser: Parser): Option<StoreCall> {
    match kind
    case Data => DataCall(parser.parseD(message))
    case Control => ControlCall(parser.parseC(message))
    case UnknownType(_) => None
  }

  // ---------------------------------------------------------------------
  // The handlers, on the shared store and its mutex.
  // ---------------------------------------------------------------------

  method ParseMessageWithControlProtocol(store: Store, parser: Parser, message: string)
    returns (reply: string, rc: ReturnType)
    requires store.Valid() && !store.locked
    modifies store
    ensures store.Valid() && !store.locked
    ensures Step(reply, rc, store.items) == ControlStep(parser.parseC(message), message, old(store.items))
    ensures store.items == old(store.items)
    ensures store.trace == old(store.trace) + Bracket(ControlCall(parser.parseC(message)))
  {
    var cmd := parser.parseC(message);
    reply, rc := message, RSuccess;
    if cmd.CError? {
      if |message| == 0 {
        reply := GOODBYE;
        rc := RDeath;
        return;
      } else {
        reply := NOT_FOUND;
      }
    } else if cmd.CShutdown? {
      reply := SHUTTING_DOWN;
      rc := RShutdown;
      return;
    } else if cmd.CCount? {
      store.Lock();
      var n := store.CountItems();
      reply := FormatInt(n) + "\n";
      store.Unlock();
      BracketShape(old(store.trace), StoreCall.CountItems);
    }
    // any other command: the buffer is left as it was
  }

  method ParseMessageWithDataProtocol(store: Store, parser: Parser, message: string)
    returns (reply: string, rc: ReturnType)
    requires store.Valid() && !store.locked
    modifies store
    ensures store.Valid() && !store.locked
    ensures Step(reply, rc, store.items) == DataStep(parser.parseD(message), old(store.items), store.policy)
    ensures store.trace == old(store.trace) + Bracket(DataCall(parser.parseD(message)))
  {
    var cmd := parser.parseD(message);
    rc := RSuccess;
    match cmd
    case DCount =>
      store.Lock();
      var itemCount := store.CountItems();
      store.Unlock();
      BracketShape(old(store.trace), StoreCall.CountItems);
      reply := FormatInt(itemCount) + "\n";
    case DExists(key) =>
      store.Lock();
      var doesExist := store.ItemExists(key);
      store.Unlock();
      BracketShape(old(store.trace), StoreCall.ItemExists(key));
      reply := FormatInt(doesExist) + "\n";
    case DGet(key) =>
      store.Lock();
      var result := store.FindValue(key);
      store.Unlock();
      BracketShape(old(store.trace), StoreCall.FindValue(key));
      if result.None? {
        reply := NO_SUCH_KEY;
      } else {
        reply := result.value + "\n";
      }
    case DPut(key, text) =>
      store.Lock();
      var isError := store.CreateItem(key, text);
      store.Unlock();
      BracketShape(old(store.trace), StoreCall.CreateItem(key, text));
      if isError == 0 {
        reply := SUCCESS;
      } else {
        reply := STORE_ERROR;
      }
    case DDelete(key) =>
      store.Lock();
      var isError := store.DeleteItem(key);
      store.Unlock();
      BracketShape(old(store.trace), StoreCall.DeleteItem(key));
      if isError == 0 {
        reply := SUCCESS;
      } else {
        reply := NO_KEY_FOUND;
      }
    case DEnd =>
      reply := GOODBYE;
      rc := RDeath;
    case DErrOl =>
      reply := TOO_LONG_LINE;
    case DErrInvalid =>
      reply := INVALID;
    case DErrShort =>
      reply := TOO_SHORT;
    case DErrLong =>
      reply := TOO_LONG;
    case DOther(_) =>
      reply := NOT_FOUND;
  }

  /**
   * run_command: DATA jobs go to the data handler, CONTROL jobs to the
   * control handler; any other type returns R_ERROR with the buffer, the
   * store and the mutex untouched.
   */
  method RunCommand(store: Store, parser: Parser, kind: SocketType, message: string)
    returns (reply: string, rc: ReturnType)
    requires store.Valid() && !store.locked
    modifies store
    ensures store.Valid() && !store.locked
    ensures Step(reply, rc, store.items) == RunCommandStep(kind, message, parser, old(store.items), store.policy)
    ensures store.trace == old(store.trace) + Bracket(RunCommandCall(kind, message, parser))
    ensures kind.UnknownType? ==> reply == message && rc == RError && store.items == old(store.items)
  {
    if kind.Data? {
      reply, rc := ParseMessageWithDataProtocol(store, parser, message);
    } else if kind.Control? {
      reply, rc := ParseMessageWithControlProtocol(store, parser, message);
    } else {
      reply, rc := message, RError;
    }
  }

  // ---------------------------------------------------------------------
  // Properties of the interpreter.
  // ---------------------------------------------------------------------

  /**
   * The return codes: only a CONTROL SHUTDOWN asks for shutdown, only an
   * ended DATA session or an empty CONTROL line closes the connection, and
   * only an unknown job type gives R_ERROR.
   */
  lemma ReturnCodes(kind: SocketType, message: string, parser: Parser,
                    items: map<string, string>, policy: StorePolicy)
    ensures var s := RunCommandStep(kind, message, parser, items, policy);
      && (s.rc == RShutdown <==> kind == Control && parser.parseC(message) == CShutdown)
      && (s.rc == RDeath <==> (kind == Data && parser.parseD(message) == DEnd)
                              || (kind == Control && parser.parseC(message) == CError && message == ""))
      && (s.rc == RError <==> kind.UnknownType?)
      && (s.rc == RDeath ==> s.message == GOODBYE && s.items == items)
  {
  }

  /**
   * Only a DATA PUT or DELETE that the store accepted changes the store, and
   * then by exactly that one key.
   */
  lemma OnlyAcceptedWritesChangeStore(kind: SocketType, message: string, parser: Parser,
                                      items: map<string, string>, policy: StorePolicy)
    ensures var s := RunCommandStep(kind, message, parser, items, policy);
      && (s.items != items ==> kind == Data && (parser.parseD(message).DPut? || parser.parseD(message).DDelete?))
      && (kind == Data && parser.parseD(message).DPut? ==>
            var c := parser.parseD(message);
            (s.items == if policy.create(items, c.key, c.text) == 0 then items[c.key := c.text] else items))
      && (kind == Data && parser.parseD(message).DDelete? ==>
            var c := parser.parseD(message);
            (s.items == if policy.delete(items, c.key) == 0 then items - {c.key} else items))
  {
  }

  /** A COUNT reply, on either port, is the number of stored keys in decimal and reads back as it. */
  lemma CountReplyReadsBack(kind: SocketType, message: string, parser: Parser,
                            items: map<string, string>, policy: StorePolicy)
    requires (kind == Data && parser.parseD(message) == DCount)
          || (kind == Control && parser.parseC(message) == CCount)
    ensures var s := RunCommandStep(kind, message, parser, items, policy);
      && s.rc == RSuccess && s.items == items
      && |s.message| >= 2 && s.message[|s.message| - 1] == '\n'
      && ParseInt(s.message[..|s.message| - 1]) == Some(|items|)
  {
    var s := RunCommandStep(kind, message, parser, items, policy);
    assert s.message == FormatInt(|items|) + "\n";
    assert s.message[..|s.message| - 1] == FormatInt(|items|);
    FormatIntRoundTrip(|items|);
  }

  /** COUNT gives the same line on the DATA and on the CONTROL port for the same store. */
  lemma CountAgreesAcrossPorts(message: string, items: map<string, string>, policy: StorePolicy)
    ensures DataStep(DCount, items, policy).message == ControlStep(CCount, message, items).message
  {
  }

  /** An EXISTS reply reads back as 1 exactly when the key is stored, and as 0 exactly when it is not. */
  lemma ExistsReplyReadsBack(key: string, items: map<string, string>, policy: StorePolicy)
    ensures var s := DataStep(DExists(key), items, policy);
      && s.rc == RSuccess && s.items == items
      && |s.message| >= 2 && s.message[|s.message| - 1] == '\n'
      && (ParseInt(s.message[..|s.message| - 1]) == Some(1) <==> key in items)
      && (ParseInt(s.message[..|s.message| - 1]) == Some(0) <==> key !in items)
  {
    var s := DataStep(DExists(key), items, policy);
    assert s.message[..|s.message| - 1] == FormatInt(ExistsFlag(items, key));
    FormatIntRoundTrip(ExistsFlag(items, key));
  }

  /** GET replies the stored value and a newline, or "No such key." when the key is absent. */
  lemma GetReply(key: string, items: map<string, string>, policy: StorePolicy)
    ensures var s := DataStep(DGet(key), items, policy);
      && s.rc == RSuccess && s.items == items
      && (key in items ==> s.message[..|s.message| - 1] == items[key] && s.message[|s.message| - 1] == '\n')
      && (key !in items ==> s.message == NO_SUCH_KEY)
  {
    var s := DataStep(DGet(key), items, policy);
    if key in items {
      assert s.message == items[key] + "\n";
      assert s.message[..|s.message| - 1] == items[key];
    }
  }

  /**
   * PUT replies "Success." exactly when createItem returned 0, and a PUT the
   * store accepted is seen by a later GET and EXISTS.
   */
  lemma PutThenGet(key: string, text: string, items: map<string, string>, policy: StorePolicy)
    ensures var put := DataStep(DPut(key, text), items, policy);
      && put.rc == RSuccess
      && (put.message == SUCCESS <==> policy.create(items, key, text) == 0)
      && (put.message == STORE_ERROR <==> policy.create(items, key, text) != 0)
      && (policy.create(items, key, text) == 0 ==>
            DataStep(DGet(key), put.items, policy).message == text + "\n"
            && DataStep(DExists(key), put.items, policy).message == "1\n")
      && (policy.create(items, key, text) != 0 ==> put.items == items)
  {
    var put := DataStep(DPut(key, text), items, policy);
    if policy.create(items, key, text) == 0 {
      assert FormatInt(1) == "1";
    }
  }

  /**
   * DELETE replies "Success." exactly when deleteItem returned 0, and after
   * an accepted DELETE the key reads as absent.
   */
  lemma DeleteThenAbsent(key: string, items: map<string, string>, policy: StorePolicy)
    ensures var del := DataStep(DDelete(key), items, policy);
      && del.rc == RSuccess
      && (del.message == SUCCESS <==> policy.delete(items, key) == 0)
      && (del.message == NO_KEY_FOUND <==> policy.delete(items, key) != 0)
      && (policy.delete(items, key) == 0 ==>
            DataStep(DGet(key), del.items, policy).message == NO_SUCH_KEY
            && DataStep(DExists(key), del.items, policy).message == "0\n")
      && (policy.delete(items, key) != 0 ==> del.items == items)
  {
    var del := DataStep(DDelete(key), items, policy);
    if policy.delete(items, key) == 0 {
      assert FormatInt(0) == "0";
    }
  }

  predicate IsDataError(cmd: DataCmd) {
    cmd.DErrOl? || cmd.DErrInvalid? || cmd.DErrShort? || cmd.DErrLong? || cmd.DOther?
  }

  /**
   * The DATA parse errors: each kind has its own reply line, none of them
   * ends the session or touches the store, and none reads as a success.
   */
  lemma DataErrorReplies(c1: DataCmd, c2: DataCmd, items: map<string, string>, policy: StorePolicy)
    requires IsDataError(c1) && IsDataError(c2)
    ensures var s1, s2 := DataStep(c1, items, policy), DataStep(c2, items, policy);
      && s1.rc == RSuccess && s1.items == items && s1.message != SUCCESS && s1.message != GOODBYE
      && (s1.message == s2.message <==> c1 == c2 || (c1.DOther? && c2.DOther?))
  {
    var s1, s2 := DataStep(c1, items, policy), DataStep(c2, items, policy);
    assert TOO_LONG_LINE[8] == 'a' && INVALID[8] == 'o' && TOO_SHORT[8] == 'o' && TOO_LONG[8] == 'o';
    assert INVALID[15] == 'n' && TOO_SHORT[15] == 't' && TOO_LONG[15] == 't';
    assert TOO_SHORT[19] == 's' && TOO_LONG[19] == 'l';
    assert NOT_FOUND[0] == 'C';
  }

  /**
   * Every reply ends with a newline, except where the buffer is handed back
   * untouched: an unknown job type, and the CONTROL branch for a command
   * the parser should never return.
   */
  lemma RepliesAreLines(kind: SocketType, message: string, parser: Parser,
                        items: map<string, string>, policy: StorePolicy)
    ensures var s := RunCommandStep(kind, message, parser, items, policy);
      && (kind.UnknownType? || (kind == Control && parser.parseC(message).COther?) ==> s.message == message)
      && (!kind.UnknownType? && !(kind == Control && parser.parseC(message).COther?) ==>
            |s.message| >= 1 && s.message[|s.message| - 1] == '\n')
  {
  }
}
