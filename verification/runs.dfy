/** Straight-line runs of the index-register counters. A run applies INX,
    DEX, INY and DEY in order; running a program and then its reverse, with
    every step replaced by its inverse, gives back the starting state except
    for the status byte. */
module Runs {
  import opened Machine
  import Counters
  import Laws

  /** One of the counter instructions on X and Y. */
  datatype Step = Inx | Dex | Iny | Dey

  /** The handler a step names. */
  function Apply(s: State, step: Step): State {
    match step
    case Inx => Counters.Inx(s)
    case Dex => Counters.Dex(s)
    case Iny => Counters.Iny(s)
    case Dey => Counters.Dey(s)
  }

  /** Executes the steps of `prog` from first to last. */
  function Run(s: State, prog: seq<Step>): State
    decreases |prog|
  {
    if prog == [] then s else Run(Apply(s, prog[0]), prog[1..])
  }

  /** The step that undoes `step`. */
  function Undo(step: Step): Step {
    match step
    case Inx => Dex
    case Dex => Inx
    case Iny => Dey
    case Dey => Iny
  }

  /** The program that undoes `prog`: its steps in reverse order, each
      replaced by its inverse. */
  function Reverse(prog: seq<Step>): (r: seq<Step>)
    ensures |r| == |prog|
    decreases |prog|
  {
    if prog == [] then [] else Reverse(prog[1..]) + [Undo(prog[0])]
  }

  /** Reversing a concatenation reverses the parts and swaps them. */
  lemma {:induction false} ReverseAppend(a: seq<Step>, b: seq<Step>)
    ensures Reverse(a + b) == Reverse(b) + Reverse(a)
    decreases |a|
  {
    if a == [] {
      assert a + b == b;
    } else {
      assert (a + b)[0] == a[0];
      assert (a + b)[1..] == a[1..] + b;
      ReverseAppend(a[1..], b);
    }
  }

  /** `s` and `t` agree on memory and every register except P. */
  predicate SameButFlags(s: State, t: State) {
    s == t.(p := s.p)
  }

  /** A counter step's effect on everything but P does not depend on P. */
  lemma ApplyIgnoresFlags(s: State, t: State, step: Step)
    requires SameButFlags(s, t)
    ensures SameButFlags(Apply(s, step), Apply(t, step))
  {
    match step
    case Inx =>
    case Dex =>
    case Iny =>
    case Dey =>
  }

  /** Hence neither does a whole run's. */
  lemma {:induction false} RunIgnoresFlags(s: State, t: State, prog: seq<Step>)
    requires SameButFlags(s, t)
    ensures SameButFlags(Run(s, prog), Run(t, prog))
    decreases |prog|
  {
    if prog != [] {
      ApplyIgnoresFlags(s, t, prog[0]);
      RunIgnoresFlags(Apply(s, prog[0]), Apply(t, prog[0]), prog[1..]);
    }
  }

  /** Running `a` and then `b` is running their concatenation. */
  lemma {:induction false} RunAppend(s: State, a: seq<Step>, b: seq<Step>)
    ensures Run(s, a + b) == Run(Run(s, a), b)
    decreases |a|
  {
    if a != [] {
      assert (a + b)[0] == a[0];
      assert (a + b)[1..] == a[1..] + b;
      RunAppend(Apply(s, a[0]), a[1..], b);
    } else {
      assert a + b == b;
    }
  }

  /** A step followed by its inverse restores everything but P. */
  lemma UndoStep(s: State, step: Step)
    ensures SameButFlags(Apply(Apply(s, step), Undo(step)), s)
  {
    match step
    case Inx => Laws.InxThenDex(s);
    case Dex => Laws.DexThenInx(s);
    case Iny => Laws.InyThenDey(s);
    case Dey => Laws.DeyThenIny(s);
  }

  /** Running a program and then its reverse restores memory and every
      register except P. */
  lemma {:induction false} RunThenReverse(s: State, prog: seq<Step>)
    ensures SameButFlags(Run(Run(s, prog), Reverse(prog)), s)
    decreases |prog|
  {
    if prog != [] {
      var step := prog[0];
      var t := Apply(s, step);
      var mid := Run(t, prog[1..]);
      assert Run(s, prog) == mid;
      RunAppend(mid, Reverse(prog[1..]), [Undo(step)]);
      RunThenReverse(t, prog[1..]);
      var back := Run(mid, Reverse(prog[1..]));
      assert SameButFlags(back, t);
      assert Run(back, [Undo(step)]) == Apply(back, Undo(step));
      ApplyIgnoresFlags(back, t, Undo(step));
      UndoStep(s, step);
    }
  }
}
