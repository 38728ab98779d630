/** The example program: a `cycle_count` type that opts into equality, ordering, addition,
    subtraction, increment and decrement, and an `instruction_count` type with no capability.
    The two share the representation `int` but are distinct types. */
module ComputerArchitecture {
  import opened Strong
  import opened Op

  datatype CycleCountTag = CycleCountTag
  datatype InstructionCountTag = InstructionCountTag

  type CycleCount = Type<CycleCountTag>
  type InstructionCount = Type<InstructionCountTag>

  /** The body of `main` for `cycle_count`, returning the numbers it writes to standard
      output, one per line, in order (a `bool` is written as 0 or 1). */
  method Run() returns (output: seq<int>)
    ensures output == [0, 1, 1, 0, 1, 1, 50, 9, 62]
  {
    var cycles: CycleCount := new Type(50);
    var moreCycles: CycleCount := new Type(60);
    var evenMoreCycles := Add(cycles, moreCycles);

    var fifty: CycleCount := new Type(50);
    var thirtyFive: CycleCount := new Type(35);
    var fifteen: CycleCount := new Type(15);
    var sum := Add(thirtyFive, fifteen);
    assert Get(cycles) == 50 && Get(moreCycles) == 60 && Get(evenMoreCycles) == 110;
    assert Get(fifty) == 50 && Get(sum) == 50;
    var equalLine := BoolOutput(Equal(cycles, moreCycles));
    var lessLine := BoolOutput(Less(cycles, moreCycles));
    var lessEqualLine := BoolOutput(LessEqual(cycles, evenMoreCycles));
    var greaterLine := BoolOutput(Greater(cycles, moreCycles));
    var greaterEqualLine := BoolOutput(GreaterEqual(cycles, fifty));
    var sumLine := BoolOutput(Equal(cycles, sum));
    var getLine := Get(cycles);

    var lessCycles := Subtract(evenMoreCycles, cycles);
    var four: CycleCount := new Type(4);
    var _ := AddAssign(lessCycles, four);
    assert Get(lessCycles) == 64 && Get(moreCycles) == 60;
    var difference := Subtract(lessCycles, moreCycles);
    var five: CycleCount := new Type(5);
    var total := Add(difference, five);
    assert Get(total) == 9;
    var differenceLine := Get(total);

    var three: CycleCount := new Type(3);
    var _ := SubtractAssign(lessCycles, three);
    var _ := Increment(lessCycles);
    assert Get(lessCycles) == 62;
    var copy := PostIncrement(lessCycles);
    assert Get(lessCycles) == 63 && Get(copy) == 63;
    var _ := Decrement(lessCycles);
    var finalLine := Get(lessCycles);
    output := [equalLine, lessLine, lessEqualLine, greaterLine, greaterEqualLine, sumLine, getLine,
               differenceLine, finalLine];
  }

  /** How a `bool` appears on an output stream by default. */
  function BoolOutput(b: bool): (r: int)
    ensures r == 0 || r == 1
    ensures r == 1 <==> b
  {
    if b then 1 else 0
  }
}
