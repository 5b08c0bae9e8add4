/** Blocks as values: an array, the labels of its axes, and nested gradients. */
module Blocks {
  import opened Sequences
  import opened Arrays
  import opened LabelSets

  datatype Block = Block(values: Array, samples: Labels, components: seq<Labels>, properties: Labels,
                         gradients: map<string, Block>)

  function Counts(components: seq<Labels>): (r: seq<nat>)
    ensures |r| == |components|
    ensures forall i :: 0 <= i < |r| ==> r[i] == |components[i].rows|
  {
    seq(|components|, i requires 0 <= i < |components| => |components[i].rows|)
  }

  function NamesOf(components: seq<Labels>): (r: seq<seq<string>>)
    ensures |r| == |components|
    ensures forall i :: 0 <= i < |r| ==> r[i] == components[i].names
  {
    seq(|components|, i requires 0 <= i < |components| => components[i].names)
  }

  /** The shape that the labels of a block ask for. */
  function BlockShape(samples: Labels, components: seq<Labels>, properties: Labels): seq<nat> {
    [|samples.rows|] + Counts(components) + [|properties.rows|]
  }

  ghost predicate ValidComponents(components: seq<Labels>) {
    forall i :: 0 <= i < |components| ==> |components[i].names| == 1 && components[i].rows != []
  }

  /** What `TensorBlock::new` checks. */
  ghost predicate WellLabelled(values: Array, samples: Labels, components: seq<Labels>, properties: Labels) {
    && values.shape == BlockShape(samples, components, properties)
    && Distinct(NamesOf(components))
    && ValidComponents(components)
  }

  /** What `TensorBlock::add_gradient` checks, besides the parameter being new. */
  ghost predicate GradientFits(b: Block, g: Block) {
    && g.samples.names != [] && g.samples.names[0] == "sample"
    && (forall i :: 0 <= i < |g.samples.rows| ==>
          g.samples.rows[i] != [] && 0 <= g.samples.rows[i][0] < |b.samples.rows|)
    && ValidComponents(g.components)
    && |b.components| <= |g.components|
    && g.properties == b.properties
    && g.components[|g.components| - |b.components|..] == b.components
  }

  ghost predicate ValidParts(b: Block) {
    && ValidArray(b.values)
    && ValidLabels(b.samples)
    && ValidLabels(b.properties)
    && (forall i :: 0 <= i < |b.components| ==> ValidLabels(b.components[i]))
    && WellLabelled(b.values, b.samples, b.components, b.properties)
  }

  /** Gradient parameters are C strings. */
  predicate ValidParameter(parameter: string) {
    '\0' !in parameter
  }

  /** The invariant of a block and of all its nested gradients. */
  ghost predicate ValidBlock(b: Block) {
    && ValidParts(b)
    && forall p :: p in b.gradients ==> ValidParameter(p) && ValidBlock(b.gradients[p]) && GradientFits(b, b.gradients[p])
  }

  /** Whether a gradient fits depends on the labels of the block only. */
  lemma SameLabelsFit(a: Block, b: Block, g: Block)
    requires GradientFits(a, g) && b.samples == a.samples && b.components == a.components && b.properties == a.properties
    ensures GradientFits(b, g)
  {}

  lemma GradientKeepsBlockValid(b: Block, parameter: string, g: Block)
    requires ValidBlock(b) && ValidBlock(g) && ValidParameter(parameter) && GradientFits(b, g)
    ensures ValidBlock(b.(gradients := b.gradients[parameter := g]))
  {
    hide GradientFits;
    var r := b.(gradients := b.gradients[parameter := g]);
    forall p | p in r.gradients ensures ValidParameter(p) && ValidBlock(r.gradients[p]) && GradientFits(r, r.gradients[p]) {
      if p == parameter {
        SameLabelsFit(b, r, g);
      } else {
        SameLabelsFit(b, r, b.gradients[p]);
      }
    }
  }

  lemma PartsOfValidBlock(b: Block)
    requires ValidBlock(b)
    ensures ValidParts(b)
  {}

  /** A block with some of its gradients only. */
  function WithGradients(whole: Block, done: set<string>): Block {
    whole.(gradients := map p | p in whole.gradients && p in done :: whole.gradients[p])
  }

  lemma OneMoreGradient(whole: Block, done: set<string>, p: string)
    requires p in whole.gradients && p !in done
    ensures p !in WithGradients(whole, done).gradients
    ensures WithGradients(whole, done + {p})
         == WithGradients(whole, done).(gradients := WithGradients(whole, done).gradients[p := whole.gradients[p]])
  {
    assert WithGradients(whole, done + {p}).gradients == WithGradients(whole, done).gradients[p := whole.gradients[p]];
  }
}
