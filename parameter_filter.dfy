/**
 * The log filter: a selector string naming a preset, or a custom list of property
 * names separated by '|', resolved into the ordered list of names to log.
 */
module ParameterFilter {
  import opened Wrappers
  import opened PhpStrings
  import opened DefaultFilters

  /**
   * Why a selector cannot be resolved: a "+h" preset names a list constant that
   * does not exist, or, in the code as written, a preset constant is an array and
   * explode() only takes a string.
   */
  datatype FilterError = UndefinedPreset(constantName: string) | ExplodeOfArray(constantName: string)

  /** The filter object: the selector and the header switch, both set once on construction. */
  datatype ParameterFilter = ParameterFilter(filter: string, includeHeaders: bool)

  /** new ParameterFilter($filter, $include_headers), with the source's defaults. */
  function Create(filter: string := "standard", includeHeaders: bool := true): ParameterFilter
  {
    ParameterFilter(filter, includeHeaders)
  }

  /** The seven selectors the preset switch recognises. */
  predicate IsPreset(filter: string)
  {
    filter in ["standard", "full", "full+h", "request_only", "request_only+h", "response_only", "response_only+h"]
  }

  /** parse_custom_filters(): the selector split at every '|'. */
  function ParseCustomFilters(filter: string): seq<string>
  {
    Split(filter, '|')
  }

  /** create_filters(): a preset's list, a failure for the "+h" presets, otherwise the custom split. */
  function CreateFilters(pf: ParameterFilter): Result<seq<string>, FilterError>
  {
    if pf.filter == "standard" then Success(STANDARD)
    else if pf.filter == "full" then Success(FULL)
    else if pf.filter == "full+h" then Failure(UndefinedPreset("FULL_H"))
    else if pf.filter == "request_only" then Success(REQUEST_ONLY)
    else if pf.filter == "request_only+h" then Failure(UndefinedPreset("REQUEST_ONLY_H"))
    else if pf.filter == "response_only" then Success(RESPONSE_ONLY)
    else if pf.filter == "response_only+h" then Failure(UndefinedPreset("RESPONSE_ONLY_H"))
    else Success(ParseCustomFilters(pf.filter))
  }

  /**
   * create_filters() as written: every preset case passes an array constant to
   * explode(), which fails, so only custom selectors resolve.
   */
  function CreateFiltersAsWritten(pf: ParameterFilter): (r: Result<seq<string>, FilterError>)
    ensures r.Success? <==> !IsPreset(pf.filter)
    ensures !IsPreset(pf.filter) ==> r == CreateFilters(pf)
  {
    if pf.filter == "standard" then Failure(ExplodeOfArray("STANDARD"))
    else if pf.filter == "full" then Failure(ExplodeOfArray("FULL"))
    else if pf.filter == "full+h" then Failure(UndefinedPreset("FULL_H"))
    else if pf.filter == "request_only" then Failure(ExplodeOfArray("REQUEST_ONLY"))
    else if pf.filter == "request_only+h" then Failure(UndefinedPreset("REQUEST_ONLY_H"))
    else if pf.filter == "response_only" then Failure(ExplodeOfArray("RESPONSE_ONLY"))
    else if pf.filter == "response_only+h" then Failure(UndefinedPreset("RESPONSE_ONLY_H"))
    else Success(ParseCustomFilters(pf.filter))
  }

  /**
   * The discrepancy: with no arguments the filter as written cannot be resolved,
   * where the evident intent is the STANDARD list.
   */
  lemma DefaultFailsAsWritten()
    ensures CreateFiltersAsWritten(Create()) == Failure(ExplodeOfArray("STANDARD"))
    ensures CreateFilters(Create()) == Success(STANDARD)
  {
  }

  /** With no arguments the filter is "standard", which selects STANDARD. */
  lemma DefaultIsStandard()
    ensures Create().filter == "standard" && Create().includeHeaders
    ensures CreateFilters(Create()) == Success(STANDARD)
  {
  }

  /** Each preset selects its fixed list; the three "+h" presets fail. */
  lemma PresetSelection(b: bool)
    ensures CreateFilters(Create("standard", b)) == Success(STANDARD)
    ensures CreateFilters(Create("full", b)) == Success(FULL)
    ensures CreateFilters(Create("request_only", b)) == Success(REQUEST_ONLY)
    ensures CreateFilters(Create("response_only", b)) == Success(RESPONSE_ONLY)
    ensures CreateFilters(Create("full+h", b)).Failure?
    ensures CreateFilters(Create("request_only+h", b)).Failure?
    ensures CreateFilters(Create("response_only+h", b)).Failure?
  {
  }

  /** A selector that names no preset resolves to its custom split. */
  lemma CustomResolves(filter: string, b: bool)
    requires !IsPreset(filter)
    ensures CreateFilters(Create(filter, b)) == Success(ParseCustomFilters(filter))
  {
  }

  /**
   * Any other selector resolves to its '|'-split: never empty, one more name than
   * there are '|' characters, no name containing '|', and joining the names with
   * '|' gives back the selector. Empty names are kept and nothing is validated.
   */
  lemma CustomFilterSplit(filter: string, b: bool)
    requires !IsPreset(filter)
    ensures CreateFilters(Create(filter, b)).Success?
    ensures var names := CreateFilters(Create(filter, b)).value;
      && |names| == Count(filter, '|') + 1
      && (forall i :: 0 <= i < |names| ==> '|' !in names[i])
      && Join(names, '|') == filter
  {
    CustomResolves(filter, b);
    SplitCount(filter, '|');
    SplitPiecesFree(filter, '|');
    JoinSplit(filter, '|');
  }

  /** A custom list of names without '|', joined with '|', resolves back to that list. */
  lemma CustomFilterRoundTrip(names: seq<string>, b: bool)
    requires |names| >= 1
    requires forall i :: 0 <= i < |names| ==> '|' !in names[i]
    requires !IsPreset(Join(names, '|'))
    ensures CreateFilters(Create(Join(names, '|'), b)) == Success(names)
  {
    CustomResolves(Join(names, '|'), b);
    SplitJoin(names, '|');
  }

  /** Empty names between separators are kept: "a||b" gives three names. */
  lemma EmptyNamesKept()
    ensures CreateFilters(Create("a||b")) == Success(["a", "", "b"])
  {
    var names := ["a", "", "b"];
    assert Join(names, '|') == "a||b";
    assert !IsPreset("a||b");
    CustomFilterRoundTrip(names, true);
  }

  /** The header switch is stored but never changes what a selector resolves to. */
  lemma HeaderSwitchIgnored(pf: ParameterFilter, b: bool)
    ensures CreateFilters(pf.(includeHeaders := b)) == CreateFilters(pf)
  {
  }
}
