/** Trainable variables as the graph lists them: a name and a shape. Only their
    names and element counts matter to the model. */
module Tensors {

  /** A trainable variable: its full name (e.g. `policy/hidden1/dense/kernel:0`) and shape. */
  datatype Var = Var(name: string, shape: seq<nat>)

  /** `np.prod(shape)`: the number of elements of a tensor of that shape (1 for a scalar). */
  function Product(shape: seq<nat>): nat
    decreases |shape|
  {
    if |shape| == 0 then 1 else shape[0] * Product(shape[1..])
  }

  /** The element count summed over `vars`. */
  function TotalSize(vars: seq<Var>): nat
    decreases |vars|
  {
    if |vars| == 0 then 0 else Product(vars[0].shape) + TotalSize(vars[1..])
  }

  lemma {:induction false} TotalSizeAppend(a: seq<Var>, b: seq<Var>)
    ensures TotalSize(a + b) == TotalSize(a) + TotalSize(b)
    decreases |a|
  {
    if |a| > 0 {
      assert (a + b)[1..] == a[1..] + b;
      TotalSizeAppend(a[1..], b);
    } else {
      assert a + b == b;
    }
  }

  lemma ProductOfPair(m: nat, n: nat)
    ensures Product([m, n]) == m * n
  {
    assert [m, n][1..] == [n];
    ProductOfSingle(n);
  }

  lemma ProductOfSingle(n: nat)
    ensures Product([n]) == n
  {
    assert [n][1..] == [];
  }
}
