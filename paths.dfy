/**
 * Addressing inside a node tree: a `Step` from a container to one of its
 * children (by label or by one-based index) and a `Path` of steps from the
 * root.
 */
module Paths {
  import Decimal

  datatype Step = LabelStep(name: string) | IndexStep(index: int)

  /** `LabelStep.toString()` is "/" followed by the label, `IndexStep.toString()` is "#index". */
  function StepToString(s: Step): (r: string)
    ensures |r| >= 1
    ensures r[0] == (if s.LabelStep? then '/' else '#')
    ensures s.LabelStep? ==> r[1..] == s.name
    ensures s.IndexStep? ==> r[1..] == Decimal.IntToString(s.index)
  {
    match s
    case LabelStep(name) => "/" + name
    case IndexStep(index) => "#" + Decimal.IntToString(index)
  }

  datatype Path = Path(steps: seq<Step>)

  const Root: Path := Path([])

  /** `Path.plus`: a new path, one step longer. */
  function Plus(p: Path, next: Step): (r: Path)
    ensures |r.steps| == |p.steps| + 1
    ensures r.steps[..|p.steps|] == p.steps && r.steps[|p.steps|] == next
  {
    Path(p.steps + [next])
  }

  /** The step texts joined with no separator. */
  function StepsText(steps: seq<Step>): string
  {
    if steps == [] then "" else StepToString(steps[0]) + StepsText(steps[1..])
  }

  /** `Path.toString()`: the step texts between braces. */
  function PathToString(p: Path): string
  {
    "{" + StepsText(p.steps) + "}"
  }

  lemma {:induction false} StepsTextAppend(steps: seq<Step>, next: Step)
    ensures StepsText(steps + [next]) == StepsText(steps) + StepToString(next)
  {
    if steps != [] {
      assert (steps + [next])[1..] == steps[1..] + [next];
      StepsTextAppend(steps[1..], next);
    } else {
      assert [next][1..] == [];
    }
  }

  /** Printing `p + s` inserts the text of `s` just before the closing brace of `p`'s text. */
  lemma PlusPrints(p: Path, next: Step)
    ensures PathToString(Plus(p, next)) == "{" + StepsText(p.steps) + StepToString(next) + "}"
  {
    StepsTextAppend(p.steps, next);
  }

  /** A printed path starts with '{' and ends with '}'; the root path prints as "{}". */
  lemma PathPrintShape(p: Path)
    ensures var t := PathToString(p); |t| >= 2 && t[0] == '{' && t[|t| - 1] == '}'
    ensures p.steps == [] <==> PathToString(p) == "{}"
  {
    if p.steps != [] {
      assert |StepsText(p.steps)| >= 1;
    }
  }

  /** A label step and an index step never print alike, and each kind prints its argument back. */
  lemma StepToStringInjective(s: Step, t: Step)
    requires StepToString(s) == StepToString(t)
    ensures s == t
  {
    if s.IndexStep? && t.IndexStep? {
      Decimal.IntToStringInjective(s.index, t.index);
    }
  }

  /** The printed form of a path with one label step and one index step. */
  lemma PathPrintExample()
    ensures PathToString(Path([LabelStep("a"), IndexStep(3)])) == "{/a#3}"
  {
    assert Decimal.IntToString(3) == "3";
    StepsTextAppend([], LabelStep("a"));
    assert [] + [LabelStep("a")] == [LabelStep("a")];
    StepsTextAppend([LabelStep("a")], IndexStep(3));
  }
}
