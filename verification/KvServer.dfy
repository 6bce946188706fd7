/** The replicated key/value service: applying committed commands once each, snapshots, restarts. */
module KvServer {
  import opened Prelude
  import opened KvTypes

  datatype Err = OK | ErrNoKey

  datatype Response = Response(err: Err, value: string)

  datatype OperationContext = OperationContext(maxAppliedCommandId: int, lastResponse: Response)

  /** What a snapshot encodes. */
  datatype KvState = KvState(store: map<string, string>, lastOperations: map<int, OperationContext>)

  datatype Replica = Replica(lastApplied: nat, state: KvState)

  datatype ApplyMsg =
    | CommandMsg(index: nat, command: Command)
    | SnapshotMsg(snapshotIndex: nat, snapshot: Option<KvState>)

  const EMPTY := KvState(map[], map[])

  // ---------- specification ----------

  predicate IsWrite(c: Command) { c.op != OpGet }

  function ValueOf(store: map<string, string>, key: string): string { if key in store then store[key] else "" }

  /** A command executed with no regard for duplicates. */
  function Execute(store: map<string, string>, c: Command): map<string, string> {
    match c.op
    case OpPut => store[c.key := c.value]
    case OpAppend => store[c.key := ValueOf(store, c.key) + c.value]
    case OpGet => store
  }

  function Answer(store: map<string, string>, c: Command): Response {
    if c.op == OpGet && c.key !in store then Response(ErrNoKey, "")
    else if c.op == OpGet then Response(OK, store[c.key])
    else Response(OK, "")
  }

  predicate IsDuplicate(ops: map<int, OperationContext>, clientId: int, commandId: int) {
    clientId in ops && commandId <= ops[clientId].maxAppliedCommandId
  }

  /** A command that comes off the log: writes seen before are not executed again. */
  function ApplyCommand(s: KvState, c: Command): KvState {
    if IsWrite(c) && IsDuplicate(s.lastOperations, c.clientId, c.commandId) then s
    else
      KvState(Execute(s.store, c),
              if IsWrite(c) then s.lastOperations[c.clientId := OperationContext(c.commandId, Answer(s.store, c))]
              else s.lastOperations)
  }

  function ReplayLog(log: seq<Command>): KvState {
    if log == [] then EMPTY else ApplyCommand(ReplayLog(log[..|log| - 1]), log[|log| - 1])
  }

  /** One message from the apply channel; accepted is the answer of CondInstallSnapshot. */
  function OnMessage(r: Replica, m: ApplyMsg, accepted: bool): Replica {
    match m
    case CommandMsg(index, command) =>
      if index <= r.lastApplied then r else Replica(index, ApplyCommand(r.state, command))
    case SnapshotMsg(index, snapshot) =>
      if accepted then Replica(index, if snapshot.Some? then snapshot.value else r.state) else r
  }

  function Started(snapshot: Option<KvState>): Replica {
    Replica(0, if snapshot.Some? then snapshot.value else EMPTY)
  }

  // ---------- implementation ----------

  class MemoryKV {
    var kv: map<string, string>

    constructor (kv: map<string, string>)
      ensures this.kv == kv
    {
      this.kv := kv;
    }

    method Get(key: string) returns (value: string, err: Err)
      ensures value == ValueOf(kv, key) && (err == OK <==> key in kv)
    {
      if key in kv {
        return kv[key], OK;
      }
      return "", ErrNoKey;
    }

    method Put(key: string, value: string) returns (err: Err)
      modifies this
      ensures kv == old(kv)[key := value] && err == OK
    {
      kv := kv[key := value];
      return OK;
    }

    method Append(key: string, value: string) returns (err: Err)
      modifies this
      ensures kv == old(kv)[key := ValueOf(old(kv), key) + value] && err == OK
    {
      kv := kv[key := ValueOf(kv, key) + value];
      return OK;
    }
  }

  class KVServer {
    var lastApplied: nat
    var stateMachine: MemoryKV
    var lastOperations: map<int, OperationContext>

    ghost function State(): KvState
      reads this, stateMachine
    {
      KvState(stateMachine.kv, lastOperations)
    }

    ghost function View(): Replica
      reads this, stateMachine
    {
      Replica(lastApplied, State())
    }

    constructor (snapshot: Option<KvState>)
      ensures View() == Started(snapshot) && fresh(stateMachine) && lastApplied == 0
    {
      lastApplied := 0;
      if snapshot.Some? {
        stateMachine := new MemoryKV(snapshot.value.store);
        lastOperations := snapshot.value.lastOperations;
      } else {
        stateMachine := new MemoryKV(map[]);
        lastOperations := map[];
      }
    }

    predicate IsDuplicateRequest(clientId: int, requestId: int)
      reads this
    {
      clientId in lastOperations && requestId <= lastOperations[clientId].maxAppliedCommandId
    }

    method ApplyLogToStateMachine(command: Command) returns (response: Response)
      modifies stateMachine
      ensures stateMachine.kv == Execute(old(stateMachine.kv), command)
      ensures response == Answer(old(stateMachine.kv), command)
    {
      var value, err := "", OK;
      match command.op {
        case OpPut => err := stateMachine.Put(command.key, command.value);
        case OpAppend => err := stateMachine.Append(command.key, command.value);
        case OpGet => value, err := stateMachine.Get(command.key);
      }
      return Response(err, value);
    }

    method RestoreSnapshot(snapshot: Option<KvState>)
      modifies this
      ensures lastApplied == old(lastApplied)
      ensures State() == if snapshot.Some? then snapshot.value else old(State())
      ensures snapshot.None? ==> stateMachine == old(stateMachine)
      ensures snapshot.Some? ==> fresh(stateMachine)
    {
      if snapshot.Some? {
        stateMachine := new MemoryKV(snapshot.value.store);
        lastOperations := snapshot.value.lastOperations;
      }
    }

    /** One turn of the applier; the snapshot it takes, if told to, encodes its state. */
    method Apply(message: ApplyMsg, accepted: bool, needSnapshot: bool)
      returns (response: Option<Response>, snapshot: Option<KvState>)
      modifies this, stateMachine
      ensures View() == OnMessage(old(View()), message, accepted)
      ensures stateMachine == old(stateMachine) || fresh(stateMachine)
      ensures snapshot == if message.CommandMsg? && message.index > old(lastApplied) && needSnapshot then Some(State())
                else None
      ensures response.Some? <==> message.CommandMsg? && message.index > old(lastApplied)
      ensures response.Some? ==>
                response.value ==
                if IsWrite(message.command)
                  && IsDuplicate(old(lastOperations), message.command.clientId, message.command.commandId)
                then old(lastOperations)[message.command.clientId].lastResponse
                else Answer(old(stateMachine.kv), message.command)
    {
      response, snapshot := None, None;
      if message.CommandMsg? {
        if message.index <= lastApplied {
          return;
        }
        lastApplied := message.index;
        var command := message.command;
        if command.op != OpGet && IsDuplicateRequest(command.clientId, command.commandId) {
          response := Some(lastOperations[command.clientId].lastResponse);
        } else {
          var r := ApplyLogToStateMachine(command);
          response := Some(r);
          if command.op != OpGet {
            lastOperations := lastOperations[command.clientId := OperationContext(command.commandId, r)];
          }
        }
        if needSnapshot {
          snapshot := Some(KvState(stateMachine.kv, lastOperations));
        }
      } else if accepted {
        RestoreSnapshot(message.snapshot);
        lastApplied := message.snapshotIndex;
      }
    }
  }
}
