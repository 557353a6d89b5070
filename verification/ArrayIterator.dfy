/** MStaskArray::MIterator: an index of an unsigned w-bit type that `+=` clamps to the size of the
    array and `-=` does not clamp at all, its `< 0` test being false of every unsigned value. */
module ArrayIterator {
  import opened Division

  /** The number of values of a w-bit word. */
  function Words(w: nat): (m: nat)
    ensures m > 0
  {
    if w == 0 then 1 else 2 * Words(w - 1)
  }

  /** Each bit doubles the number: w bits have 2^w values. */
  lemma {:induction false} WordsMultiply(v: nat, w: nat)
    ensures Words(v + w) == Words(v) * Words(w) && Words(1) == 2
    decreases v
  {
    assert Words(1) == 2 * Words(0);
    if v == 0 {
    } else {
      WordsMultiply(v - 1, w);
      assert Words(v + w) == 2 * Words(v - 1 + w);
    }
  }

  // ------------------------------------------------------------------ one move

  /** index += k: wraps, then clamps to the size. */
  function Plus(m: nat, size: nat, index: nat, k: nat): (r: nat)
    requires index < m && size < m
  {
    var wrapped := (index + k) % m;
    if wrapped > size then size else wrapped
  }

  /** index -= k: wraps. */
  function Minus(m: nat, index: nat, k: nat): (r: nat)
    requires index < m
  {
    (index - k) % m
  }

  /** The value of x mod m for x at most one word out of range. */
  lemma Wrap(m: nat, x: int)
    requires m > 0 && -(m as int) <= x < 2 * m
    ensures x % m == if x < 0 then x + m else if x < m then x else x - m
  {
  }

  /** Going back k and then forward k returns, for every k, even when going back underflows,
      exactly to the indices up to the size. */
  lemma BackAndForth(w: nat, size: nat, index: nat, k: nat)
    requires index < Words(w) && size < Words(w) && k < Words(w)
    ensures Minus(Words(w), index, k) < Words(w)
    ensures Plus(Words(w), size, Minus(Words(w), index, k), k) == index <==> index <= size
  {
    var m := Words(w);
    Wrap(m, index - k);
    Wrap(m, Minus(m, index, k) + k);
  }

  /** Going forward k and then back k returns exactly when the addition was not clamped, wherever
      the index was. */
  lemma ForthAndBack(w: nat, size: nat, index: nat, k: nat)
    requires index < Words(w) && size < Words(w) && k < Words(w)
    ensures Plus(Words(w), size, index, k) < Words(w)
    ensures Minus(Words(w), Plus(Words(w), size, index, k), k) == index
       <==> (index + k) % Words(w) <= size
  {
    var m := Words(w);
    Wrap(m, index + k);
    var there := Plus(m, size, index, k);
    Wrap(m, there - k);
  }

  /** Going back k and then forward j amounts to one move by the difference, from any index: an
      addition if it leads forward, even when the index underflowed in between, and otherwise a
      subtraction clamped if it is still underflowed. */
  lemma BackThenForth(w: nat, size: nat, index: nat, k: nat, j: nat)
    requires index < Words(w) && size < Words(w) && k < Words(w) && j < Words(w)
    ensures Minus(Words(w), index, k) < Words(w)
    ensures k <= j ==> Plus(Words(w), size, Minus(Words(w), index, k), j) == Plus(Words(w), size, index, j - k)
    ensures j < k ==> Plus(Words(w), size, Minus(Words(w), index, k), j) ==
                        if Minus(Words(w), index, k - j) > size then size else Minus(Words(w), index, k - j)
  {
    var m := Words(w);
    Wrap(m, index - k);
    Wrap(m, Minus(m, index, k) + j);
    Wrap(m, index - k + j);
  }

  /** What a move does, in plain numbers.  An addition that stays below 2^w stops at the size; one
      that does not is 2^w lower and then stops at the size too.  A subtraction goes to zero and
      round to the top of the word. */
  lemma MovesInNumbers(w: nat, size: nat, index: nat, k: nat)
    requires index < Words(w) && size < Words(w) && k < Words(w)
    ensures index + k <= size ==> Plus(Words(w), size, index, k) == index + k
    ensures size <= index + k < Words(w) ==> Plus(Words(w), size, index, k) == size
    ensures Words(w) <= index + k <= Words(w) + size ==> Plus(Words(w), size, index, k) == index + k - Words(w)
    ensures Words(w) + size <= index + k ==> Plus(Words(w), size, index, k) == size
    ensures k <= index ==> Minus(Words(w), index, k) == index - k
    ensures index < k ==> Minus(Words(w), index, k) == index + Words(w) - k
  {
    Wrap(Words(w), index + k);
    Wrap(Words(w), index - k);
  }

  /** `-=` keeps the index within the array exactly when it does not underflow, or underflows by
      so much that it comes round into the array again. */
  lemma MinusStaysInside(w: nat, size: nat, index: nat, k: nat)
    requires index <= size < Words(w) && k < Words(w)
    ensures Minus(Words(w), index, k) <= size <==> k <= index || k >= index + Words(w) - size
  {
    Wrap(Words(w), index - k);
  }

  // ------------------------------------------------------------------ runs of moves

  datatype Move = Forward(offset: nat) | Back(offset: nat)

  function Signed(move: Move): int {
    match move
    case Forward(k) => k
    case Back(k) => -(k as int)
  }

  function Total(moves: seq<Move>): int
    decreases |moves|
  {
    if moves == [] then 0 else Total(moves[..|moves| - 1]) + Signed(moves[|moves| - 1])
  }

  function Walk(m: nat, size: nat, index: nat, moves: seq<Move>): (r: nat)
    requires index < m && size < m
    ensures r < m
    decreases |moves|
  {
    if moves == [] then index
    else
      var before := Walk(m, size, index, moves[..|moves| - 1]);
      match moves[|moves| - 1]
      case Forward(k) => Plus(m, size, before, k)
      case Back(k) => Minus(m, before, k)
  }

  /** No addition of the run wraps, and no subtraction exceeds the index it meets. */
  ghost predicate Tame(m: nat, size: nat, index: nat, moves: seq<Move>)
    requires index < m && size < m
    decreases |moves|
  {
    moves == [] ||
    (var before := moves[..|moves| - 1];
     && Tame(m, size, index, before)
     && match moves[|moves| - 1]
        case Forward(k) => Walk(m, size, index, before) + k < m
        case Back(k) => k <= Walk(m, size, index, before))
  }

  /** The furthest an unclamped walk has been past the end of the array. */
  function Overshoot(size: nat, index: int, moves: seq<Move>): (over: nat)
    decreases |moves|
  {
    if moves == [] then (if index > size then index - size else 0)
    else
      var before := Overshoot(size, index, moves[..|moves| - 1]);
      var now := index + Total(moves) - size;
      if now > before then now else before
  }

  /** A tame run of clamped moves, in closed form: where the unclamped moves would lead, less the
      furthest they ever went past the end.  So the index stays within the array throughout. */
  lemma {:induction false} WalkIsReflected(m: nat, size: nat, index: nat, moves: seq<Move>)
    requires index <= size < m && Tame(m, size, index, moves)
    ensures Walk(m, size, index, moves) == index + Total(moves) - Overshoot(size, index, moves)
    ensures Walk(m, size, index, moves) <= size
    decreases |moves|
  {
    if moves == [] {
    } else {
      var before := moves[..|moves| - 1];
      WalkIsReflected(m, size, index, before);
      var at := Walk(m, size, index, before);
      Wrap(m, at + Signed(moves[|moves| - 1]));
    }
  }

  ghost predicate AllForward(moves: seq<Move>) {
    forall i :: 0 <= i < |moves| ==> moves[i].Forward?
  }

  /** Additions that do not wrap clamp their sum, once there is one. */
  lemma {:induction false} ForwardWalk(m: nat, size: nat, index: nat, moves: seq<Move>)
    requires AllForward(moves) && index < m && size < m && index + Total(moves) < m
    ensures Total(moves) >= 0
    ensures Walk(m, size, index, moves) ==
              if moves == [] then index else if index + Total(moves) > size then size else index + Total(moves)
    decreases |moves|
  {
    if moves == [] {
    } else {
      var before, k := moves[..|moves| - 1], moves[|moves| - 1].offset;
      assert Total(moves) == Total(before) + k;
      ForwardWalk(m, size, index, before);
      Wrap(m, Walk(m, size, index, before) + k);
    }
  }

  /** Any additions whose total does not wrap amount to one addition of their sum, from any index.
      No addition at all amounts to adding 0 only up to the size. */
  lemma MovesCollapse(w: nat, size: nat, index: nat, moves: seq<Move>)
    requires AllForward(moves) && index < Words(w) && size < Words(w)
    requires index + Total(moves) < Words(w)
    ensures Total(moves) >= 0
    ensures Walk(Words(w), size, index, moves) == Plus(Words(w), size, index, Total(moves))
       <==> moves != [] || index <= size
  {
    ForwardWalk(Words(w), size, index, moves);
    Wrap(Words(w), index + Total(moves));
  }

  /** Without the bound on the total the law fails: on 2-bit words and an array of 2, two
      additions of 2 lead from 1 to 0, while adding their sum, 4 mod 4, stays at 1. */
  lemma CollapseNeedsNoWrap()
    ensures var moves := [Forward(2), Forward(2)];
            && Words(2) == 4 && Total(moves) % 4 == 0
            && Walk(4, 2, 1, moves) != Plus(4, 2, 1, Total(moves) % 4)
  {
  }

  // ------------------------------------------------------------------ the objects

  class MStaskArray<T> {
    const data: array<T>

    constructor (data: array<T>)
      ensures this.data == data
    {
      this.data := data;
    }

    /** The number of elements the array was declared with. */
    function Size(): (size: nat)
      ensures size == data.Length
    {
      data.Length
    }

    /** A traversal: from begin(), `++` until end() is met, dereferencing on the way.  It yields
        the elements of the array, each once and in order. */
    method Traverse(w: nat) returns (values: seq<T>)
      requires data.Length < Words(w)
      ensures values == data[..]
    {
      values := [];
      var it := Begin(w);
      var end := End(w);
      var met := it.Equals(end);
      while !met
        invariant fresh(it) && fresh(end) && it != end && it.Valid() && it.w == w && it.parent == this
        invariant end.index == data.Length && it.index <= data.Length
        invariant met <==> it.index == data.Length
        invariant values == data[..it.index]
        decreases data.Length - it.index
      {
        var value := it.Deref();
        values := values + [value];
        MovesInNumbers(w, data.Length, it.index, 1);
        var was := it.PostIncrement();
        met := it.Equals(end);
      }
    }

    /** begin(): the index 0. */
    method Begin(w: nat) returns (it: MIterator<T>)
      requires data.Length < Words(w)
      ensures fresh(it) && it.w == w && it.parent == this && it.Valid() && it.index == 0
    {
      it := new MIterator<T>(w, this, 0);
    }

    /** end(): the index one past the last. */
    method End(w: nat) returns (it: MIterator<T>)
      requires data.Length < Words(w)
      ensures fresh(it) && it.w == w && it.parent == this && it.Valid() && it.index == data.Length
    {
      it := new MIterator<T>(w, this, Size());
    }
  }

  /** An iterator over an array whose size fits the word. */
  class MIterator<T> {
    const w: nat
    const parent: MStaskArray<T>
    var index: nat

    ghost predicate Valid()
      reads this
    {
      index < Words(w) && parent.data.Length < Words(w)
    }

    constructor (w: nat, parent: MStaskArray<T>, index: nat)
      requires index < Words(w) && parent.data.Length < Words(w)
      ensures this.w == w && this.parent == parent && this.index == index && Valid()
    {
      this.w, this.parent, this.index := w, parent, index;
    }

    method AddAssign(offset: nat)
      requires Valid() && offset < Words(w)
      modifies this
      ensures Valid() && index == Plus(Words(w), parent.data.Length, old(index), offset)
      ensures index <= parent.data.Length
    {
      index := (index + offset) % Words(w);
      if index > parent.Size() {
        index := parent.Size();
      }
    }

    /** The source's test for a negative index is left out: it is false of an unsigned value. */
    method SubAssign(offset: nat)
      requires Valid() && offset < Words(w)
      modifies this
      ensures Valid() && index == Minus(Words(w), old(index), offset)
    {
      index := (index - offset) % Words(w);
    }

    /** it + offset: a moved copy; the iterator itself stays. */
    method Add(offset: nat) returns (it: MIterator<T>)
      requires Valid() && offset < Words(w)
      ensures fresh(it) && it.w == w && it.parent == parent && it.Valid()
      ensures it.index == Plus(Words(w), parent.data.Length, index, offset)
    {
      it := new MIterator<T>(w, parent, index);
      it.AddAssign(offset);
    }

    /** it - offset. */
    method Sub(offset: nat) returns (it: MIterator<T>)
      requires Valid() && offset < Words(w)
      ensures fresh(it) && it.w == w && it.parent == parent && it.Valid()
      ensures it.index == Minus(Words(w), index, offset)
    {
      it := new MIterator<T>(w, parent, index);
      it.SubAssign(offset);
    }

    /** it++: moves on, returns where it was. */
    method PostIncrement() returns (was: MIterator<T>)
      requires Valid() && 1 < Words(w)
      modifies this
      ensures Valid() && index == Plus(Words(w), parent.data.Length, old(index), 1)
      ensures fresh(was) && was.w == w && was.parent == parent && was.Valid() && was.index == old(index)
    {
      was := new MIterator<T>(w, parent, index);
      AddAssign(1);
    }

    /** it == other: the indices are compared, the arrays are not. */
    method Equals(other: MIterator<T>) returns (equal: bool)
      ensures equal <==> index == other.index
    {
      equal := index == other.index;
    }

    /** *it, of an iterator that is not at the end. */
    method Deref() returns (value: T)
      requires Valid() && index < parent.data.Length
      ensures value == parent.data[index]
    {
      value := parent.data[index];
    }
  }

  lemma NextRemainder(m: nat, count: nat)
    requires m > 0 && count > 0
    ensures (count - 1) % m < m
    ensures count % m == if (count - 1) % m + 1 == m then 0 else (count - 1) % m + 1
  {
    var q, r := (count - 1) / m, (count - 1) % m;
    assert count - 1 == q * m + r;
    if r + 1 == m {
      assert (q + 1) * m == q * m + m;
      DivUnique(count, m, q + 1, 0);
    } else {
      DivUnique(count, m, q, r + 1);
    }
  }

  /** Stepping `count` times from begin() lands on element `count`, and at the end from then on:
      a traversal from begin() to end() meets each element once, in order.  Only if the size is
      the largest value of the word does the walk not stay at the end but start again. */
  lemma {:induction false} StepsFromBegin(w: nat, size: nat, count: nat)
    requires size < Words(w)
    ensures Walk(Words(w), size, 0, seq(count, _ => Forward(1))) ==
              if size + 1 == Words(w) then count % Words(w) else if count <= size then count else size
    decreases count
  {
    var m := Words(w);
    if count == 0 {
    } else {
      var moves := seq(count, _ => Forward(1));
      assert moves[..count - 1] == seq(count - 1, _ => Forward(1));
      StepsFromBegin(w, size, count - 1);
      var at := Walk(m, size, 0, moves[..count - 1]);
      Wrap(m, at + 1);
      NextRemainder(m, count);
    }
  }

  /** `++` at the end stays there unless the size is the largest value of the word, and not 0. */
  lemma EndStaysIff(w: nat, size: nat)
    requires size < Words(w)
    ensures Plus(Words(w), size, size, 1) == size <==> size + 1 < Words(w) || size == 0
  {
    Wrap(Words(w), size + 1);
  }
}
