/** The model picker's list rules: a case-insensitive search over
    `"name version"`, the split of the matches into pinned and other models,
    and the hand-off of a clicked model to the optional callback. */
module ModelSelectionArea {
  import opened Wrappers
  import Text
  import Lists
  import opened Models

  /** The text a search is matched against. */
  function Label(m: ModelType): string
  {
    m.name + " " + m.version
  }

  /** The lower-cased label contains the lower-cased term. */
  predicate Matches(term: string, m: ModelType)
  {
    Text.Includes(Text.Lower(Label(m)), Text.Lower(term))
  }

  /** `filteredModels`: every model for an empty term; otherwise the models
      whose label contains the term, ignoring case, in their order. */
  function FilteredModels(models: seq<ModelType>, searchTerm: string): (r: seq<ModelType>)
    ensures searchTerm == "" ==> r == models
    ensures forall m :: m in r <==> m in models && Matches(searchTerm, m)
    ensures forall m :: multiset(r)[m] == if Matches(searchTerm, m) then multiset(models)[m] else 0
    ensures Lists.IsSubsequence(r, models)
  {
    if searchTerm != "" then
      var p := (m: ModelType) => Matches(searchTerm, m);
      Lists.FilterIsSubsequence(models, p);
      Lists.FilterMembers(models, p);
      Lists.FilterCounts(models, p);
      Lists.Filter(models, p)
    else
      assert forall m :: Matches(searchTerm, m);
      Lists.SubsequenceOfItself(models);
      models
  }

  /** Two terms with the same lower-case form find the same models. */
  lemma SameLowerSameModels(models: seq<ModelType>, t1: string, t2: string)
    requires Text.Lower(t1) == Text.Lower(t2)
    ensures FilteredModels(models, t1) == FilteredModels(models, t2)
  {
    assert |t1| == |t2|;
    Lists.FilterAgree(models, (m: ModelType) => Matches(t1, m), (m: ModelType) => Matches(t2, m));
  }

  /** A model shown among the pinned ones: `isPinned` is set and true. */
  predicate Pinned(m: ModelType)
  {
    m.isPinned == Some(true)
  }

  /** `pinnedModels`. */
  function PinnedModels(filtered: seq<ModelType>): seq<ModelType>
  {
    Lists.Filter(filtered, Pinned)
  }

  /** `otherModels`: a model without `isPinned` counts as not pinned. */
  function OtherModels(filtered: seq<ModelType>): seq<ModelType>
  {
    Lists.Filter(filtered, (m: ModelType) => !Pinned(m))
  }

  /** The pinned and the other models split the matches: each holds only its
      kind, in the order of the matches, and together they hold every match
      once. */
  lemma PinnedAndOtherSplit(filtered: seq<ModelType>)
    ensures forall m :: m in PinnedModels(filtered) <==> m in filtered && Pinned(m)
    ensures forall m :: m in OtherModels(filtered) <==> m in filtered && !Pinned(m)
    ensures multiset(PinnedModels(filtered)) + multiset(OtherModels(filtered)) == multiset(filtered)
    ensures Lists.IsSubsequence(PinnedModels(filtered), filtered)
    ensures Lists.IsSubsequence(OtherModels(filtered), filtered)
  {
    Lists.FilterSplits(filtered, Pinned, (m: ModelType) => !Pinned(m));
    Lists.FilterIsSubsequence(filtered, Pinned);
    Lists.FilterIsSubsequence(filtered, (m: ModelType) => !Pinned(m));
    Lists.FilterMembers(filtered, Pinned);
    Lists.FilterMembers(filtered, (m: ModelType) => !Pinned(m));
  }

  /** `handleModelSelect(model)`: the calls made to `onSelectModel`, which
      may be absent. */
  function HandleModelSelect(hasCallback: bool, model: ModelType): (calls: seq<ModelType>)
    ensures hasCallback ==> calls == [model]
    ensures !hasCallback ==> calls == []
  {
    if hasCallback then [model] else []
  }
}
