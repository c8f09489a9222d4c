/** Compiling an option map and applying two of them to a request body (packages/model-option-map/src/compiler.ts:35-65,
    packages/model-option-map/src/option-maps.ts). */
module OptionMaps {
  import opened Json
  import opened Tokenizer
  import opened Expressions
  import opened Printing
  import opened Sources
  import opened Parsers
  import opened MergePatches
  import opened PatchApplication
  import opened Evaluator
  import opened Meanings
  import opened Grammar

  /** compileModelOptionMap without its caches: the tree that the trimmed source means, if it is accepted by the object
      check. */
  method CompileModelOptionMap(source: string, option: OptionName) returns (r: SourceResult)
    ensures var normalized := Trim(source); var parsed := ParseSource(normalized, option);
      && (r.Ok? <==> normalized != [] && parsed.Ok? && ObjectResult(parsed.expr))
      && (r.Ok? ==> r == parsed && Expressible(r.expr))
    ensures forall e :: r == Ok(e) <==> Means(Trim(source), option, e) && ObjectResult(e)
  {
    hide Expressible, Means, Tokenize;
    var normalized := Trim(source);
    forall e ensures ParseSource(normalized, option) == Ok(e) <==> Means(normalized, option, e) {
      SourceMeansIff(normalized, option, e);
    }
    if |normalized| == 0 {
      NothingMeansNothing(option);
      return Error(0);
    }
    r := ParseRestrictedCel(normalized, option);
    ParsedIsExpressible(normalized, option);
    if r.Ok? && !ObjectResult(r.expr) {
      r := Error(0);
    }
  }

  lemma NothingMeansNothing(option: OptionName)
    ensures forall e :: !Means("", option, e)
  {
    forall e ensures !Means("", option, e) {
      SourceMeansIff("", option, e);
      assert Tokenize("") == Lexed([Token(Eof, "", 0, 0)]);
      TokenizedIsTokenList("", 0);
    }
  }

  /** A string, or a number that survives JSON. */
  ghost predicate Acceptable(input: Value) {
    input.Str? || (input.Num? && Fits(input.n))
  }

  datatype Applied = Body(outcome: Outcome) | EvaluationFailed

  /** CompiledModelOptionMaps.apply: both maps are evaluated, then merged in order.  It fails exactly if an input is not
      acceptable or a map has no value on it; otherwise `p` and `q` are the values of the maps, and the outcome is the
      body with both merged in, or an overlap.  The merge needs object patches, which the compile-time check
      guarantees. */
  method ApplyOptionMaps(body: Value, reasoning: Expr, tokens: Expr, level: Value, limit: Value)
      returns (r: Applied, ghost p: Value, ghost q: Value)
    requires body.Obj? && ObjectResult(reasoning) && ObjectResult(tokens) && Expressible(reasoning) && Expressible(tokens)
    ensures r.EvaluationFailed? <==>
      || !Acceptable(level) || !Acceptable(limit)
      || (forall v :: !Yields(reasoning, level, v)) || (forall v :: !Yields(tokens, limit, v))
    ensures r.Body? ==>
      && Yields(reasoning, level, p) && Yields(tokens, limit, q)
      && (r.outcome.Merged? <==> Disjoint(p, q))
      && (r.outcome.Merged? ==> r.outcome.value == MergePatch(MergePatch(body, p), q))
  {
    hide Evaluate, Yields, Expressible, MergePatch, Disjoint;
    p, q := Null, Null;
    AcceptedGivesObjects(reasoning, level);
    AcceptedGivesObjects(tokens, limit);
    FailsIff(reasoning, level);
    FailsIff(tokens, limit);
    AcceptableIff(level);
    AcceptableIff(limit);
    hide ValidInput, Acceptable;
    if !ValidInput(level) || !ValidInput(limit) {
      return EvaluationFailed, Null, Null;
    }
    var first, second := Evaluate(reasoning, level), Evaluate(tokens, limit);
    if first.Failed? || second.Failed? {
      return EvaluationFailed, Null, Null;
    }
    p, q := first.value, second.value;
    EvaluatesIff(reasoning, level, p);
    EvaluatesIff(tokens, limit, q);
    var patches := [NamedPatch("reasoningLevel", first.value), NamedPatch("maxOutputTokens", second.value)];
    var outcome := ApplyOrderedJsonMergePatches(body, patches);
    BothPatches(body, patches[0], patches[1]);
    r := Body(outcome);
  }

  lemma AcceptableIff(input: Value)
    ensures ValidInput(input) <==> Acceptable(input)
  {
    if input.Num? {
      FitsIffSafe(input.n);
    }
  }

  lemma BothPatches(body: Value, first: NamedPatch, second: NamedPatch)
    ensures MergeAll(body, [first, second]) == MergePatch(MergePatch(body, first.patch), second.patch)
    ensures ConflictFree([first, second]) <==> Disjoint(first.patch, second.patch)
  {
    hide MergePatch, Disjoint;
    assert [first, second] == [first] + [second];
    MergeAllAppend(body, [first], [second]);
    ApplyOne(body, first);
    ApplyOne(MergePatch(body, first.patch), second);
  }
}
