/** The bytecode container of the Rust port: a list of instructions, the
    source line of each, and a constant pool that `Constant` instructions
    index with one byte. Values are modelled as exact reals. */
module Chunks {
  import opened Common

  type Byte = n: nat | n < 256
  type Line = n: nat | n < 0x1_0000

  datatype OpCode = Return | Constant(index: Byte)

  datatype Chunk = Chunk(code: seq<OpCode>, constants: seq<real>, lines: seq<Line>)

  /** Every instruction has its line, at the same index. */
  predicate Aligned(c: Chunk) {
    |c.code| == |c.lines|
  }

  /** `Chunk::new`. */
  function NewChunk(): (c: Chunk)
    ensures Aligned(c) && |c.code| == 0 && |c.constants| == 0
  {
    Chunk([], [], [])
  }

  /** `write`: appends an instruction and its line. */
  function Write(c: Chunk, op: OpCode, line: Line): (c': Chunk)
    ensures Aligned(c) ==> Aligned(c')
    ensures |c'.code| == |c.code| + 1 && |c'.lines| == |c.lines| + 1
    ensures c'.code[|c.code|] == op && c'.lines[|c.lines|] == line
    ensures c'.code[..|c.code|] == c.code && c'.lines[..|c.lines|] == c.lines
    ensures c'.constants == c.constants
  {
    c.(code := c.code + [op], lines := c.lines + [line])
  }

  /** `add_constant` as written: appends the value and returns the new
      length minus one cast to `u8`, which keeps only the low eight bits.
      Up to 256 constants the index names the value just added. */
  function AddConstant(c: Chunk, v: real): (r: (Chunk, Byte))
    ensures r.0.code == c.code && r.0.lines == c.lines
    ensures r.0.constants == c.constants + [v]
    ensures r.1 < |r.0.constants|
    ensures |c.constants| < 256 ==> r.0.constants[r.1] == v
  {
    var c' := c.(constants := c.constants + [v]);
    (c', (|c'.constants| - 1) % 256)
  }

  /** Once the pool holds 256 constants, the next one is handed out index
      0, which names the first constant: a `Constant` instruction built from
      it loads the wrong value. */
  lemma ConstantIndexWraps(c: Chunk, v: real)
    requires |c.constants| == 256 && c.constants[0] != v
    ensures AddConstant(c, v).1 == 0
    ensures AddConstant(c, v).0.constants[AddConstant(c, v).1] != v
  {
  }

  /** The index a constant should get: the new position when it fits in a
      byte, nothing (the pool is full) otherwise. Every index handed out
      names the constant it was handed out for. */
  function AddConstantChecked(c: Chunk, v: real): (r: Option<(Chunk, Byte)>)
    ensures r.Some? <==> |c.constants| < 256
    ensures r.Some? ==> r.value.0.constants == c.constants + [v] && r.value.0.code == c.code && r.value.0.lines == c.lines
    ensures r.Some? ==> r.value.1 == |c.constants| && r.value.0.constants[r.value.1] == v
  {
    if |c.constants| < 256 then Some((c.(constants := c.constants + [v]), |c.constants|)) else None
  }

  /** The instructions and lines written one after another: each keeps its
      line at its own index. */
  function WriteAll(c: Chunk, ops: seq<(OpCode, Line)>): (c': Chunk)
    decreases |ops|
  {
    if |ops| == 0 then c else WriteAll(Write(c, ops[0].0, ops[0].1), ops[1..])
  }

  lemma {:induction false} WriteAllLines(c: Chunk, ops: seq<(OpCode, Line)>)
    requires Aligned(c)
    ensures Aligned(WriteAll(c, ops)) && WriteAll(c, ops).constants == c.constants
    ensures |WriteAll(c, ops).code| == |c.code| + |ops|
    ensures WriteAll(c, ops).code[..|c.code|] == c.code && WriteAll(c, ops).lines[..|c.lines|] == c.lines
    ensures forall i | 0 <= i < |ops| ::
              WriteAll(c, ops).code[|c.code| + i] == ops[i].0 && WriteAll(c, ops).lines[|c.code| + i] == ops[i].1
    decreases |ops|
  {
    if |ops| > 0 {
      var c1 := Write(c, ops[0].0, ops[0].1);
      WriteAllLines(c1, ops[1..]);
      var w := WriteAll(c, ops);
      assert w == WriteAll(c1, ops[1..]);
      assert w.code[..|c.code|] == w.code[..|c1.code|][..|c.code|];
      assert w.lines[..|c.lines|] == w.lines[..|c1.lines|][..|c.lines|];
      forall i | 0 <= i < |ops|
        ensures w.code[|c.code| + i] == ops[i].0 && w.lines[|c.code| + i] == ops[i].1
      {
        if i > 0 {
          assert ops[1..][i - 1] == ops[i];
        } else {
          assert w.code[..|c1.code|] == c1.code;
        }
      }
    }
  }

  /** The driver's sample chunk: a constant 1.2 and a return, both on line
      123. */
  lemma SampleChunk()
    ensures var (c, id) := AddConstant(NewChunk(), 1.2);
            var c' := Write(Write(c, Constant(id), 123), Return, 123);
            c'.code == [Constant(0), Return] && c'.lines == [123, 123] && c'.constants[0] == 1.2
  {
  }
}
