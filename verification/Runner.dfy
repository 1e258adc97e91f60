// The machine's run loop, registers updated one instruction at a time.

module Runner {
  import opened Words
  import opened Vm

  class Registers {
    var main_instPtr: int
    var main_stackPtr: int
    var main_basePtr: int
    var main_theAReg: int32
    var memory: Memory
    var m_halted: bool
    var faulted: bool
    var retnVal: int32

    ghost function Snapshot(): State
      reads this
    {
      State(main_instPtr, main_stackPtr, main_basePtr, main_theAReg, memory)
    }

    /** The machine before its first instruction: the words main returns to and its arguments are on the stack. */
    constructor (entry: int, stub: int, top: int, acc: int32, m: Memory)
      ensures !m_halted && !faulted
      ensures Snapshot() == State(entry, top - 20, top, acc,
        StoreInt(StoreInt(StoreInt(StoreInt(StoreInt(m, top - 4, EXIT), top - 8, PSH), top - 12, 0), top - 16, 0), top - 20, stub))
    {
      main_instPtr := entry;
      main_stackPtr := top;
      main_basePtr := top;
      main_theAReg := acc;
      memory := m;
      m_halted := false;
      faulted := false;
      retnVal := 0;
      new;
      hide StoreInt;
      Push(EXIT);
      Push(PSH);
      Push(0);
      Push(0);
      Push(stub);
    }

    /** What the registers show of an outcome. */
    ghost predicate Shows(o: Outcome)
      reads this
    {
      match o
      case Running(s) => !m_halted && !faulted && Snapshot() == s
      case Halted(v) => m_halted && !faulted && retnVal == v
      case Stuck => faulted && !m_halted
    }

    method Push(v: int)
      modifies this`main_stackPtr, this`memory
      ensures Snapshot() == Pushed(old(Snapshot()), v)
    {
      main_stackPtr := main_stackPtr - 4;
      memory := StoreInt(memory, main_stackPtr, v);
    }

    method Pop() returns (v: int32)
      modifies this`main_stackPtr
      ensures v == LoadInt(memory, old(main_stackPtr)) && main_stackPtr == old(main_stackPtr) + 4
    {
      v := LoadInt(memory, main_stackPtr);
      main_stackPtr := main_stackPtr + 4;
    }

    /** Runs up to the given number of instructions, stopping early at EXIT. */
    method CcRunMachine(code: seq<int>, cycs_per_run: nat)
      requires !m_halted && !faulted
      modifies this
      ensures Shows(Run(code, old(Snapshot()), cycs_per_run))
    {
      hide Step;
      ghost var whole := Run(code, Snapshot(), cycs_per_run);
      var left := cycs_per_run;
      while left != 0
        invariant !m_halted && !faulted && Run(code, Snapshot(), left) == whole
      {
        left := left - 1;
        CcStep(code);
        if m_halted || faulted { return; }
      }
    }

    method CcStep(code: seq<int>)
      requires !m_halted && !faulted
      modifies this
      ensures Shows(Step(code, old(Snapshot())))
    {
      if !(0 <= main_instPtr < |code|) {
        faulted := true;
        return;
      }
      var op := code[main_instPtr];
      if LEA <= op <= ADJ {
        if main_instPtr + 1 >= |code| {
          faulted := true;
          return;
        }
        StepWithOperand(op, code[main_instPtr + 1]);
      } else if OR <= op <= MOD {
        hide Operate;
        main_instPtr := main_instPtr + 1;
        var l := Pop();
        var r := Operate(op, l, main_theAReg);
        if r.Some? { main_theAReg := r.value; } else { faulted := true; }
      } else {
        StepWithoutOperand(op);
      }
    }

    method StepWithOperand(op: int, w: int)
      requires LEA <= op <= ADJ && !m_halted && !faulted
      modifies this`main_instPtr, this`main_stackPtr, this`main_basePtr, this`main_theAReg, this`memory
      ensures Running(Snapshot()) == StepOperand(op, w, old(Snapshot()))
    {
      var next := main_instPtr + 2;
      main_instPtr := next;
      if op == LEA { main_theAReg := Wrap(main_basePtr + 4 * w); }
      else if op == IMM { main_theAReg := Wrap(w); }
      else if op == JMP { main_instPtr := w; }
      else if op == JSR {
        Push(next);
        main_instPtr := w;
      } else if op == BZ {
        if main_theAReg == 0 { main_instPtr := w; }
      } else if op == BNZ {
        if main_theAReg != 0 { main_instPtr := w; }
      } else if op == ENT {
        Push(main_basePtr);
        main_basePtr := main_stackPtr;
        main_stackPtr := main_stackPtr - 4 * w;
      } else {
        main_stackPtr := main_stackPtr + 4 * w;
      }
    }

    method StepWithoutOperand(op: int)
      requires !(LEA <= op <= ADJ) && !(OR <= op <= MOD) && !m_halted && !faulted
      modifies this
      ensures Shows(StepPlain(op, old(Snapshot())))
    {
      main_instPtr := main_instPtr + 1;
      if op == LEV {
        main_stackPtr := main_basePtr;
        main_basePtr := Pop();
        main_instPtr := Pop();
      } else if op == LI {
        main_theAReg := LoadInt(memory, main_theAReg);
      } else if op == LC {
        main_theAReg := SignExtend(Read(memory, main_theAReg));
      } else if op == SI {
        var a := Pop();
        memory := StoreInt(memory, a, main_theAReg);
      } else if op == SC {
        var a := Pop();
        memory := StoreChar(memory, a, main_theAReg);
        main_theAReg := ToChar(main_theAReg);
      } else if op == PSH {
        Push(main_theAReg);
      } else if op == EXIT {
        retnVal := LoadInt(memory, main_stackPtr);
        m_halted := true;
      } else {
        faulted := true;
      }
    }
  }
}
