// Scripts, cells and transactions as the order lock sees them.
module Cells {
  import opened Bytes

  type U64 = x: int | 0 <= x <= U64_MAX

  datatype HashType = Data | Type | Data1 | Data2

  datatype Script = Script(codeHash: Hash, hashType: HashType, args: seq<Byte>) {
    function Id(): ScriptId { ScriptId(codeHash, hashType) }
  }

  // What two scripts share when they run the same code.
  datatype ScriptId = ScriptId(codeHash: Hash, hashType: HashType)

  datatype Cell = Cell(capacity: U64, lock: Script, typ: Option<Script>, data: seq<Byte>)

  // Script hashing is a parameter of every statement: none of them depends on how it works.
  type Hasher = Script -> Hash

  function TypeHash(hash: Hasher, c: Cell): Option<Hash> {
    if c.typ.Some? then Some(hash(c.typ.value)) else None
  }

  // Input cells resolved, in order.
  datatype Tx = Tx(inputs: seq<Cell>, outputs: seq<Cell>)
}
