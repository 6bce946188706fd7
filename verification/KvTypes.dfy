/** The commands the key/value service replicates through Raft. */
module KvTypes {

  datatype Op = OpPut | OpAppend | OpGet

  datatype Command = Command(key: string, value: string, op: Op, clientId: int, commandId: int)
}
