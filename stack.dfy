/**
 * The data stack of the machine (src/pilha.py): a LIFO over a list whose
 * last element is the top.
 */
module DataStack {
  import opened Results

  /** The IndexError raised by pop and peek on an empty stack. */
  datatype StackError = PopOnEmpty | PeekOnEmpty

  class Stack {
    /** Bottom first, top last. */
    var items: seq<int>

    constructor ()
      ensures items == []
    {
      items := [];
    }

    /** push(item): the item becomes the top, one above the old contents. */
    method Push(x: int)
      modifies this
      ensures items == old(items) + [x]
      ensures Size() == old(Size()) + 1 && Peek() == Ok(x)
    {
      items := items + [x];
    }

    /**
     * pop(): removes and returns the top; on an empty stack it fails and
     * leaves the stack as it was.
     */
    method Pop() returns (r: Result<int, StackError>)
      modifies this
      ensures old(items) == [] ==> r == Err(PopOnEmpty) && items == old(items)
      ensures old(items) != [] ==> r == Ok(old(items)[|old(items)| - 1]) && items + [r.value] == old(items)
    {
      if IsEmpty() {
        return Err(PopOnEmpty);
      }
      r := Ok(items[|items| - 1]);
      items := items[..|items| - 1];
    }

    /** peek(): the top, without removing it, or a failure on an empty stack. */
    function Peek(): (r: Result<int, StackError>)
      reads this
      ensures r.Err? <==> IsEmpty()
      ensures r.Err? ==> r.error == PeekOnEmpty
      ensures r.Ok? ==> exists below :: below + [r.value] == items
    {
      if IsEmpty() then Err(PeekOnEmpty)
      else
        assert items[..|items| - 1] + [items[|items| - 1]] == items;
        Ok(items[|items| - 1])
    }

    /** vazia() */
    predicate IsEmpty()
      reads this
      ensures IsEmpty() <==> items == []
    {
      Size() == 0
    }

    /** tamanho() */
    function Size(): (n: nat)
      reads this
      ensures n == |items|
    {
      |items|
    }
  }

  /** s read from the last element to the first. */
  function Reversed(s: seq<int>): (r: seq<int>)
    ensures |r| == |s|
    ensures forall k :: 0 <= k < |s| ==> r[k] == s[|s| - 1 - k]
  {
    if s == [] then [] else [s[|s| - 1]] + Reversed(s[..|s| - 1])
  }

  /**
   * The LIFO law: pushing vs onto a new stack and then popping |vs| times
   * yields vs in reverse order, and one more pop fails.
   */
  method LifoLaw(vs: seq<int>) returns (popped: seq<int>, extra: Result<int, StackError>)
    ensures popped == Reversed(vs)
    ensures extra == Err(PopOnEmpty)
  {
    var st := new Stack();
    for i := 0 to |vs|
      invariant st.items == vs[..i]
    {
      st.Push(vs[i]);
      assert vs[..i + 1] == vs[..i] + [vs[i]];
    }
    assert vs[..|vs|] == vs;
    popped := [];
    for i := 0 to |vs|
      invariant st.items == vs[..|vs| - i]
      invariant |popped| == i
      invariant forall k :: 0 <= k < i ==> popped[k] == vs[|vs| - 1 - k]
    {
      var r := st.Pop();
      assert r.Ok? && r.value == vs[|vs| - 1 - i];
      assert vs[..|vs| - i - 1] == vs[..|vs| - i][..|vs| - i - 1];
      popped := popped + [r.value];
    }
    extra := st.Pop();
  }
}
