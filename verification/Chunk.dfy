/** The chunk the passes rewrite in place: growable arrays with a count of live entries. */
module Chunk {
  import opened Bytecode

  class BytecodeChunk {
    var code: array<Instruction>
    var codeCount: nat
    var functions: array<FunctionInfo>
    var funcCount: nat
    var constants: array<Constant>
    var constCount: nat

    ghost predicate Valid()
      reads this
    {
      codeCount <= code.Length && funcCount <= functions.Length && constCount <= constants.Length
    }

    /** The program held in the live parts of the arrays. */
    ghost function Value(): Program
      requires Valid()
      reads this, code, functions, constants
    {
      Program(code[..codeCount], functions[..funcCount], constants[..constCount])
    }
  }
}
