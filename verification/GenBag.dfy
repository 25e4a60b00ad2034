/**
 The serializable stack of page states.

 The bag keeps the top of the stack behind the pointer `current` and the rest in a slice.
 Pop makes `current` point into the slice's backing array, at the slot just behind the
 shortened slice; that is the very slot the next push appends to. The class below keeps
 the array, the length and the pointer apart, so this sharing is there, and the methods
 are proved to behave like operations on plain values all the same.
 */
module GenBag {
  import opened GoResult

  // ---------- The specification on values ----------

  /** What json encodes: the slice and the possibly nil current state. */
  datatype BagState<T> = BagState(states: seq<T>, current: Option<T>) {
    /** No states are left below a missing current one. */
    predicate Proper() {
      current.None? ==> states == []
    }

    /** The bag as a stack, top last. States below a missing current one cannot be reached. */
    function Stack(): seq<T> {
      if current.None? then [] else states + [current.value]
    }

    function Pushed(s: T): BagState<T> {
      if current.None? then this.(current := Some(s)) else BagState(states + [current.value], Some(s))
    }

    function Popped(): BagState<T> {
      if current.None? then this
      else if states == [] then BagState([], None)
      else BagState(states[..|states| - 1], Some(states[|states| - 1]))
    }
  }

  /** json encoding and decoding of bags. */
  datatype Codec<!T> = Codec(encode: BagState<T> -> string, decode: string -> Option<BagState<T>>)

  /** Decoding undoes encoding, and no encoding is the empty string. */
  ghost predicate Lawful<T(!new)>(codec: Codec<T>) {
    forall bag :: codec.encode(bag) != "" && codec.decode(codec.encode(bag)) == Some(bag)
  }

  function Marshalled<T>(codec: Codec<T>, bag: BagState<T>): string {
    if bag.current.None? then "" else codec.encode(bag)
  }

  /** What a token stands for; None when it is corrupt. */
  function Unmarshalled<T>(codec: Codec<T>, token: string): Option<BagState<T>> {
    if token == "" then Some(BagState([], None)) else codec.decode(token)
  }

  /** Push, pop and current are the operations of a stack on every proper bag, and keep it proper. */
  lemma BagIsStack<T>(bag: BagState<T>, s: T)
    requires bag.Proper()
    ensures bag.Pushed(s).Proper() && bag.Popped().Proper()
    ensures bag.Pushed(s).Stack() == bag.Stack() + [s]
    ensures bag.Stack() == [] <==> bag.current.None?
    ensures bag.Stack() != [] ==> bag.current == Some(bag.Stack()[|bag.Stack()| - 1])
    ensures bag.Popped().Stack() == if bag.Stack() == [] then [] else bag.Stack()[..|bag.Stack()| - 1]
  {
    assert bag.states + [] == bag.states;
    if bag.current.Some? && bag.states != [] {
      assert bag.states == bag.states[..|bag.states| - 1] + [bag.states[|bag.states| - 1]];
      assert bag.Stack()[..|bag.Stack()| - 1] == bag.states;
    }
  }

  /** Pop undoes push if and only if the bag is proper: otherwise the pop brings a hidden state back to the top. */
  lemma PopUndoesPush<T>(bag: BagState<T>, s: T)
    ensures bag.Pushed(s).Popped() == bag <==> bag.Proper()
    ensures bag.Pushed(s).Popped().Stack() == bag.Stack() <==> bag.Proper()
  {
    if bag.current.Some? {
      assert (bag.states + [bag.current.value])[..|bag.states|] == bag.states;
    }
  }

  /**
   Marshalling any bag, proper or not, and unmarshalling the token gives a proper bag with
   the same stack; only an empty stack is marshalled to the end marker.
   */
  lemma TokenRoundTrip<T(!new)>(codec: Codec<T>, bag: BagState<T>)
    requires Lawful(codec)
    ensures Marshalled(codec, bag) == "" <==> bag.Stack() == []
    ensures Unmarshalled(codec, Marshalled(codec, bag)).Some?
    ensures Unmarshalled(codec, Marshalled(codec, bag)).value.Proper()
    ensures Unmarshalled(codec, Marshalled(codec, bag)).value.Stack() == bag.Stack()
    ensures Unmarshalled(codec, Marshalled(codec, bag)) == Some(bag) <==> bag.Proper()
  {
    var encoded := codec.encode(bag);
  }

  /** A token that encodes a state below no current one unmarshals to a bag that hides the state from its own stack. */
  lemma ImproperToken<T(!new)>(codec: Codec<T>, hidden: T, s: T)
    requires Lawful(codec)
    ensures var token := codec.encode(BagState([hidden], None));
            && Unmarshalled(codec, token).Some?
            && var bag := Unmarshalled(codec, token).value;
               !bag.Proper() && bag.Stack() == [] && bag.Pushed(s).Popped().Stack() == [hidden]
  {
    var bag := BagState([hidden], None);
    assert codec.decode(codec.encode(bag)) == Some(bag);
    assert bag.Pushed(s).Popped() == BagState([], Some(hidden));
  }

  // ---------- The implementation ----------

  class Cell<T> {
    var value: T

    constructor (value: T)
      ensures this.value == value
    {
      this.value := value;
    }
  }

  /** A Go pointer to a state: nil, to a variable of its own, or into a backing array. */
  datatype Pointer<T> = Nil | ToCell(cell: Cell<T>) | ToSlot(slots: array<T>, index: nat)

  class GenBag<T(0)> {
    var buffer: array<T>  // the backing array of the slice; its Length is the capacity
    var length: nat       // the length of the slice
    var current: Pointer<T>

    ghost predicate Valid()
      reads this
    {
      && length <= buffer.Length
      && (current.ToSlot? ==> current.slots == buffer && current.index == length < buffer.Length)
    }

    /** The objects the bag's state lives in. */
    ghost function Footprint(): set<object>
      reads this
    {
      {this, buffer} + if current.ToCell? then {current.cell} else {}
    }

    ghost function Value(): BagState<T>
      requires Valid()
      reads this, Footprint()
    {
      BagState(buffer[..length],
               match current
               case Nil => None
               case ToCell(cell) => Some(cell.value)
               case ToSlot(slots, index) => Some(slots[index]))
    }

    constructor ()
      ensures Valid() && fresh(Footprint())
      ensures Value() == BagState([], None)
    {
      buffer := new T[0];
      length := 0;
      current := Nil;
    }

    method Dereference() returns (s: T)
      requires Valid() && !current.Nil?
      ensures Value().current == Some(s)
    {
      match current {
        case ToCell(cell) => s := cell.value;
        case ToSlot(slots, index) => s := slots[index];
      }
    }

    /** Go's append of one state: in place while there is capacity, else in a new and larger array. */
    method Append(s: T)
      requires length <= buffer.Length
      modifies this`buffer, this`length, buffer
      ensures length == old(length) + 1 <= buffer.Length
      ensures buffer == old(buffer) || fresh(buffer)
      ensures buffer[..length] == old(buffer[..length]) + [s]
    {
      if length == buffer.Length {
        var capacity: nat :| length < capacity;
        var grown := new T[capacity];
        forall i | 0 <= i < length {
          grown[i] := buffer[i];
        }
        buffer := grown;
      }
      buffer[length] := s;
      length := length + 1;
    }

    /** Saves the current state in the slice, possibly over the slot `current` points to, and makes `s` current. */
    method Push(s: T)
      requires Valid()
      modifies this, buffer
      ensures Valid() && fresh(Footprint() - old(Footprint()))
      ensures Value() == old(Value()).Pushed(s)
      ensures Value().current == Some(s)
      ensures Value().states ==
              if old(Value()).current.Some? then old(Value()).states + [old(Value()).current.value]
              else old(Value()).states
    {
      if !current.Nil? {
        var top := Dereference();
        Append(top);
      }
      var cell := new Cell(s);
      current := ToCell(cell);
    }

    /** Returns a pointer to a copy; the bag afterwards points into its own array. */
    method Pop() returns (r: Cell?<T>)
      requires Valid()
      modifies this
      ensures Valid() && Footprint() <= old(Footprint())
      ensures Value() == old(Value()).Popped()
      ensures old(Value()).current.None? ==> Value() == old(Value())
      ensures old(Value()).current.Some? ==>
                var n := |old(Value()).states|;
                Value() == if n == 0 then BagState([], None)
                           else BagState(old(Value()).states[..n - 1], Some(old(Value()).states[n - 1]))
      ensures r == null <==> old(Value()).current == None
      ensures r != null ==> fresh(r) && old(Value()).current == Some(r.value)
    {
      if current.Nil? {
        return null;
      }
      var top := Dereference();
      r := new Cell(top);
      if length > 0 {
        current := ToSlot(buffer, length - 1);
        length := length - 1;
      } else {
        current := Nil;
      }
    }

    method Current() returns (r: Cell?<T>)
      requires Valid()
      ensures r == null <==> Value().current == None
      ensures r != null ==> fresh(r) && Value().current == Some(r.value)
    {
      if current.Nil? {
        return null;
      }
      var top := Dereference();
      r := new Cell(top);
    }

    /** Replaces the bag by what the token stands for; a corrupt token leaves the bag as it was. */
    method Unmarshal(codec: Codec<T>, token: string) returns (error: Option<Error>)
      requires Valid()
      modifies this
      ensures Valid() && fresh(Footprint() - old(Footprint()))
      ensures error == if Unmarshalled(codec, token).Some? then None else Some(CorruptPageToken)
      ensures Value() == if Unmarshalled(codec, token).Some? then Unmarshalled(codec, token).value else old(Value())
      ensures token == "" ==> error == None && Value() == BagState([], None)
      ensures token != "" && codec.decode(token).Some? ==> error == None && Value() == codec.decode(token).value
      ensures token != "" && codec.decode(token).None? ==> error == Some(CorruptPageToken) && Value() == old(Value())
    {
      var target := BagState([], None);
      if token != "" {
        var decoded := codec.decode(token);
        if decoded.None? {
          return Some(CorruptPageToken);
        }
        target := decoded.value;
      }
      var states := target.states;
      var capacity: nat :| |states| <= capacity;
      var slots := new T[capacity];
      forall i | 0 <= i < |states| {
        slots[i] := states[i];
      }
      buffer, length := slots, |states|;
      if target.current.Some? {
        var cell := new Cell(target.current.value);
        current := ToCell(cell);
      } else {
        current := Nil;
      }
      assert buffer[..length] == states;
      error := None;
    }

    method Marshal(codec: Codec<T>) returns (token: string)
      requires Valid()
      ensures token == Marshalled(codec, Value())
      ensures token == if Value().current.None? then "" else codec.encode(Value())
    {
      if current.Nil? {
        return "";
      }
      var top := Dereference();
      token := codec.encode(BagState(buffer[..length], Some(top)));
    }
  }

  // ---------- Whole runs ----------

  /** One use of the bag; Reload marshals it and unmarshals the token into it. */
  datatype Operation<T> = Push(state: T) | Pop | Current | Reload

  /** The same operation on a plain stack: the stack afterwards and the state returned. */
  function OnStack<T>(stack: seq<T>, op: Operation<T>): (seq<T>, Option<T>) {
    var top := if stack == [] then None else Some(stack[|stack| - 1]);
    match op
    case Push(s) => (stack + [s], None)
    case Pop => (if stack == [] then [] else stack[..|stack| - 1], top)
    case Current => (stack, top)
    case Reload => (stack, None)
  }

  /** The stack after a run, and what each operation returned. */
  function RunOnStack<T>(ops: seq<Operation<T>>): (r: (seq<T>, seq<Option<T>>))
    ensures |r.1| == |ops|
  {
    if ops == [] then ([], [])
    else
      var (before, outputs) := RunOnStack(ops[..|ops| - 1]);
      var (after, output) := OnStack(before, ops[|ops| - 1]);
      (after, outputs + [output])
  }

  /** The same operation on a bag's value. */
  function OnBag<T>(codec: Codec<T>, bag: BagState<T>, op: Operation<T>): (BagState<T>, Option<T>)
    requires Unmarshalled(codec, Marshalled(codec, bag)).Some?
  {
    match op
    case Push(s) => (bag.Pushed(s), None)
    case Pop => (bag.Popped(), bag.current)
    case Current => (bag, bag.current)
    case Reload => (Unmarshalled(codec, Marshalled(codec, bag)).value, None)
  }

  /** On a proper bag every operation is the stack's, and leaves the bag proper. */
  lemma OnBagIsOnStack<T(!new)>(codec: Codec<T>, bag: BagState<T>, op: Operation<T>)
    requires Lawful(codec) && bag.Proper()
    ensures Unmarshalled(codec, Marshalled(codec, bag)).Some?
    ensures var (after, output) := OnBag(codec, bag, op);
            after.Proper() && (after.Stack(), output) == OnStack(bag.Stack(), op)
  {
    TokenRoundTrip(codec, bag);
    if op.Push? {
      BagIsStack(bag, op.state);
    } else if bag.current.Some? {
      BagIsStack(bag, bag.current.value);
    }
  }

  /** A returned pointer is nil for no state, and else points to the state. */
  ghost predicate Holds<T>(output: Cell?<T>, result: Option<T>)
    reads output
  {
    if output == null then result == None else result == Some(output.value)
  }

  /** One operation on the shared-array bag does to its value what the operation on values does. */
  method Perform<T(0, !new)>(codec: Codec<T>, bag: GenBag<T>, op: Operation<T>) returns (output: Cell?<T>)
    requires Lawful(codec) && bag.Valid() && Unmarshalled(codec, Marshalled(codec, bag.Value())).Some?
    modifies bag, bag.buffer
    ensures bag.Valid() && fresh(bag.Footprint() - old(bag.Footprint()))
    ensures output != null ==> fresh(output)
    ensures var (after, result) := OnBag(codec, old(bag.Value()), op);
            bag.Value() == after && Holds(output, result)
    ensures forall c: Cell<T> :: old(allocated(c)) ==> c.value == old(c.value)
  {
    output := null;
    match op {
      case Push(s) =>
        bag.Push(s);
      case Pop =>
        output := bag.Pop();
      case Current =>
        output := bag.Current();
      case Reload =>
        var token := bag.Marshal(codec);
        var error := bag.Unmarshal(codec, token);
    }
  }

  ghost predicate AllHold<T>(outputs: seq<Cell?<T>>, results: seq<Option<T>>)
    reads set i | 0 <= i < |outputs| :: outputs[i]
  {
    |outputs| == |results| && forall i :: 0 <= i < |outputs| ==> Holds(outputs[i], results[i])
  }

  /** One more operation: its result is recorded, and the pointers recorded before still hold theirs. */
  method Record<T(0, !new)>(codec: Codec<T>, bag: GenBag<T>, op: Operation<T>,
                            outputs: seq<Cell?<T>>, ghost results: seq<Option<T>>)
    returns (outputs': seq<Cell?<T>>)
    requires Lawful(codec) && bag.Valid() && Unmarshalled(codec, Marshalled(codec, bag.Value())).Some?
    requires AllHold(outputs, results)
    modifies bag, bag.buffer
    ensures bag.Valid() && fresh(bag.Footprint() - old(bag.Footprint()))
    ensures bag.Value() == OnBag(codec, old(bag.Value()), op).0
    ensures AllHold(outputs', results + [OnBag(codec, old(bag.Value()), op).1])
  {
    var output := Perform(codec, bag, op);
    forall i | 0 <= i < |outputs| ensures Holds(outputs[i], results[i]) {
      assert old(Holds(outputs[i], results[i]));
    }
    outputs' := outputs + [output];
  }

  /**
   Every interleaving of push, pop, current and reload behaves as on a plain stack, and at
   the end every pointer ever returned still holds the value it was returned with.
   */
  method Run<T(0, !new)>(codec: Codec<T>, ops: seq<Operation<T>>) returns (bag: GenBag<T>, outputs: seq<Cell?<T>>)
    requires Lawful(codec)
    ensures fresh(bag) && bag.Valid() && fresh(bag.Footprint())
    ensures bag.Value().Proper() && bag.Value().Stack() == RunOnStack(ops).0
    ensures AllHold(outputs, RunOnStack(ops).1)
  {
    if ops == [] {
      bag := new GenBag();
      outputs := [];
    } else {
      var front, last := ops[..|ops| - 1], ops[|ops| - 1];
      bag, outputs := Run(codec, front);
      OnBagIsOnStack(codec, bag.Value(), last);
      outputs := Record(codec, bag, last, outputs, RunOnStack(front).1);
    }
  }
}
