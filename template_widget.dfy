/**
 * ImpositionTemplateWidget.jsx: the creatable select that picks an imposition template.
 * It turns the catalog into option groups, finds the option to show for the current
 * value, and commits freely typed text on Enter or Tab, adding ".pdf" when missing.
 */
module TemplateSelect {
  import opened Wrappers
  import opened Text
  import opened TemplatePaths

  datatype SelectOption = SelectOption(value: string, optionLabel: string)

  datatype OptionGroup = OptionGroup(groupLabel: string, options: seq<SelectOption>)

  // ---------------------------------------------------------------------------
  // Catalog to option groups
  // ---------------------------------------------------------------------------

  function FileOptions(files: seq<string>): seq<SelectOption> {
    seq(|files|, j requires 0 <= j < |files| => SelectOption(files[j], files[j]))
  }

  /**
   * The catalog as grouped options: one group per catalog group, in order and under the
   * same label, and one option per file whose value and label are both the file name.
   */
  function ToGroupedOptions(catalog: Catalog): (groups: seq<OptionGroup>)
    ensures |groups| == |catalog|
    ensures forall g :: 0 <= g < |catalog| ==>
      && groups[g].groupLabel == catalog[g].0
      && |groups[g].options| == |catalog[g].1|
      && (forall k :: 0 <= k < |catalog[g].1| ==>
            groups[g].options[k].value == catalog[g].1[k] && groups[g].options[k].optionLabel == catalog[g].1[k])
  {
    seq(|catalog|, g requires 0 <= g < |catalog| => OptionGroup(catalog[g].0, FileOptions(catalog[g].1)))
  }

  /** Some group holds an option with this value. */
  predicate Offered(groups: seq<OptionGroup>, v: string) {
    exists g, k :: 0 <= g < |groups| && 0 <= k < |groups[g].options| && groups[g].options[k].value == v
  }

  /** The widget offers exactly the names App.js treats as presets. */
  lemma OfferedIffPreset(catalog: Catalog, v: string)
    ensures Offered(ToGroupedOptions(catalog), v) <==> v in PresetList(Some(catalog))
  {
    var groups := ToGroupedOptions(catalog);
    if Offered(groups, v) {
      var g, k :| 0 <= g < |groups| && 0 <= k < |groups[g].options| && groups[g].options[k].value == v;
      assert catalog[g].1[k] == v;
    }
    if v in PresetList(Some(catalog)) {
      var g :| 0 <= g < |catalog| && v in catalog[g].1;
      var k :| 0 <= k < |catalog[g].1| && catalog[g].1[k] == v;
      assert groups[g].options[k].value == v;
    }
  }

  // ---------------------------------------------------------------------------
  // Finding the option to show
  // ---------------------------------------------------------------------------

  /** `options.find((opt) => opt.value === v)`. */
  function FindOption(options: seq<SelectOption>, v: string): (r: Option<SelectOption>)
    ensures r == None <==> forall k :: 0 <= k < |options| ==> options[k].value != v
    ensures r.Some? ==> exists k :: (0 <= k < |options| && options[k] == r.value && options[k].value == v
      && forall j :: 0 <= j < k ==> options[j].value != v)
  {
    if options == [] then None
    else if options[0].value == v then Some(options[0])
    else
      var r := FindOption(options[1..], v);
      assert forall k :: 1 <= k < |options| ==> options[k] == options[1..][k - 1];
      r
  }

  /**
   * The groups scanned in order; a value no group offers becomes a custom option. Either
   * way the option found carries the value it was looked up by.
   */
  function SearchGroups(groups: seq<OptionGroup>, v: string): (r: SelectOption)
    ensures r.value == v
  {
    if groups == [] then SelectOption(v, v)
    else
      match FindOption(groups[0].options, v)
      case Some(o) => o
      case None => SearchGroups(groups[1..], v)
  }

  /** `findSelectedOption(val)`: nothing for an empty or undefined value, else an option for that value. */
  function SelectedOption(groups: seq<OptionGroup>, val: Option<string>): (r: Option<SelectOption>)
    ensures r.Some? <==> Truthy(val)
    ensures r.Some? ==> r.value.value == val.value
  {
    if Truthy(val) then Some(SearchGroups(groups, val.value)) else None
  }

  /** The option at group `g`, position `k` is the first with value `v` in scanning order. */
  predicate FirstMatchAt(groups: seq<OptionGroup>, v: string, g: int, k: int) {
    && 0 <= g < |groups| && 0 <= k < |groups[g].options|
    && groups[g].options[k].value == v
    && (forall h :: 0 <= h < g ==> forall j :: 0 <= j < |groups[h].options| ==> groups[h].options[j].value != v)
    && (forall j :: 0 <= j < k ==> groups[g].options[j].value != v)
  }

  /**
   * When some group offers `v`, the search returns the first such option, groups in order
   * and options in order; otherwise it returns the custom option `{v, v}`.
   */
  lemma {:induction false} SearchGroupsResult(groups: seq<OptionGroup>, v: string)
    ensures Offered(groups, v) ==>
      exists g, k :: FirstMatchAt(groups, v, g, k) && SearchGroups(groups, v) == groups[g].options[k]
    ensures !Offered(groups, v) ==> SearchGroups(groups, v) == SelectOption(v, v)
  {
    if groups != [] {
      SearchGroupsResult(groups[1..], v);
      match FindOption(groups[0].options, v)
      case Some(o) =>
        var k :| 0 <= k < |groups[0].options| && groups[0].options[k] == o && groups[0].options[k].value == v
          && forall j :: 0 <= j < k ==> groups[0].options[j].value != v;
        assert FirstMatchAt(groups, v, 0, k);
      case None =>
        if Offered(groups, v) {
          var g, k :| 0 <= g < |groups| && 0 <= k < |groups[g].options| && groups[g].options[k].value == v;
          assert g != 0;
          assert groups[1..][g - 1].options[k].value == v;
          var g', k' :| FirstMatchAt(groups[1..], v, g', k') && SearchGroups(groups[1..], v) == groups[1..][g'].options[k'];
          assert FirstMatchAt(groups, v, g' + 1, k');
        } else {
          forall g, k | 0 <= g < |groups| - 1 && 0 <= k < |groups[1..][g].options|
            ensures groups[1..][g].options[k].value != v
          {
            assert groups[1..][g] == groups[g + 1];
          }
        }
    }
  }

  /** `handleChange`: a cleared selection emits "", any other the selected value. */
  function ChangeValue(selected: Option<SelectOption>): string {
    match selected
    case None => ""
    case Some(o) => o.value
  }

  /** Re-selecting the option shown for the current value emits that value again ("" for none). */
  lemma SelectionRoundTrip(groups: seq<OptionGroup>, val: Option<string>)
    ensures ChangeValue(SelectedOption(groups, val)) == if Truthy(val) then val.value else ""
  {
  }

  /** With groups built from the catalog, the option shown for a value is always `{value, value}`. */
  lemma {:induction false} CatalogOptionIsValue(catalog: Catalog, v: string)
    ensures SearchGroups(ToGroupedOptions(catalog), v) == SelectOption(v, v)
  {
    var groups := ToGroupedOptions(catalog);
    SearchGroupsResult(groups, v);
    if Offered(groups, v) {
      var g, k :| FirstMatchAt(groups, v, g, k) && SearchGroups(groups, v) == groups[g].options[k];
      assert groups[g].options[k] == SelectOption(catalog[g].1[k], catalog[g].1[k]);
    }
  }

  // ---------------------------------------------------------------------------
  // Committing typed text
  // ---------------------------------------------------------------------------

  predicate IsCommitKey(key: string) {
    key == "Enter" || key == "Tab"
  }

  lemma LowerPdf()
    ensures ToLower(".pdf") == ".pdf"
  {
  }

  /**
   * The value committed for typed text: whitespace-only text commits "", anything else
   * commits the trimmed text, extended by ".pdf" exactly when it lacks that ending in any
   * case, so every non-empty commit ends in ".pdf".
   */
  function NormalizeTyped(input: string): (r: string)
    ensures r == "" <==> AllWhitespace(input)
    ensures r != "" ==> EndsWithCI(r, ".pdf")
    ensures r == Trim(input) || r == Trim(input) + ".pdf"
    ensures r == Trim(input) + ".pdf" <==> Trim(input) != "" && !EndsWithCI(Trim(input), ".pdf")
  {
    var val := Trim(input);
    LowerPdf();
    if val != "" && !EndsWith(ToLower(val), ".pdf") then
      var r := val + ".pdf";
      ToLowerAppend(val, ".pdf");
      assert ToLower(r)[|r| - 4..] == ".pdf";
      r
    else val
  }

  /** What was committed neither starts nor ends with whitespace. */
  lemma NormalizedIsTrimmed(input: string)
    ensures Trim(NormalizeTyped(input)) == NormalizeTyped(input)
  {
    var val := Trim(input);
    var r := NormalizeTyped(input);
    if r != "" {
      assert r[0] == val[0];
      assert !IsWhitespace(r[|r| - 1]) by {
        if r != val {
          assert r[|r| - 1] == 'f';
        }
      }
    }
    TrimOfTrimmed(r);
  }

  /** Committing an already committed value changes nothing. */
  lemma NormalizeTypedIdempotent(input: string)
    ensures NormalizeTyped(NormalizeTyped(input)) == NormalizeTyped(input)
  {
    var r := NormalizeTyped(input);
    NormalizedIsTrimmed(input);
    if r != "" {
      LowerPdf();
      assert EndsWith(ToLower(r), ".pdf");
      assert Trim(r) == r;
    }
  }

  /** Text with no whitespace at its ends and no ".pdf" ending, such as "Custom", commits with ".pdf" added. */
  lemma NormalizeAppendsPdf(s: string)
    requires s != [] && !IsWhitespace(s[0]) && !IsWhitespace(s[|s| - 1])
    requires !EndsWithCI(s, ".pdf")
    ensures NormalizeTyped(s) == s + ".pdf"
  {
    TrimOfTrimmed(s);
    LowerPdf();
  }

  /** Text with no whitespace at its ends that already ends in ".pdf" in any case, such as "Sheet.PDF", commits unchanged. */
  lemma NormalizeKeepsPdfEnding(s: string)
    requires s != [] && !IsWhitespace(s[0]) && !IsWhitespace(s[|s| - 1])
    requires EndsWithCI(s, ".pdf")
    ensures NormalizeTyped(s) == s
  {
    TrimOfTrimmed(s);
    LowerPdf();
  }

  lemma NormalizeWhitespaceOnly()
    ensures NormalizeTyped(" \t") == ""
  {
  }

  // ---------------------------------------------------------------------------
  // The widget's state
  // ---------------------------------------------------------------------------

  class ImpositionTemplateWidget {
    /** The text being typed (`inputValue`). */
    var inputValue: string
    /** The options built from the catalog (`groupedOptions`). */
    var groupedOptions: seq<OptionGroup>

    constructor ()
      ensures inputValue == "" && groupedOptions == []
    {
      inputValue := "";
      groupedOptions := [];
    }

    /** The settled catalog fetch: options on success; a failure leaves the groups as they were. */
    method LoadTemplates(fetched: Option<Catalog>)
      modifies this
      ensures groupedOptions == if fetched.Some? then ToGroupedOptions(fetched.value) else old(groupedOptions)
      ensures inputValue == old(inputValue)
    {
      if fetched.Some? {
        groupedOptions := ToGroupedOptions(fetched.value);
      }
    }

    /** `handleInputChange`. */
    method HandleInputChange(newValue: string)
      modifies this
      ensures inputValue == newValue && groupedOptions == old(groupedOptions)
    {
      inputValue := newValue;
    }

    /** `findSelectedOption(val)`: a scan of the groups in order with an early return. */
    method FindSelectedOption(val: Option<string>) returns (r: Option<SelectOption>)
      ensures r == SelectedOption(groupedOptions, val)
    {
      if !Truthy(val) {
        return None;
      }
      var v := val.value;
      for i := 0 to |groupedOptions|
        invariant SearchGroups(groupedOptions[i..], v) == SearchGroups(groupedOptions, v)
      {
        var found := FindOption(groupedOptions[i].options, v);
        if found.Some? {
          return found;
        }
        assert groupedOptions[i..][1..] == groupedOptions[i + 1..];
      }
      return Some(SelectOption(v, v));
    }

    /**
     * `handleKeyDown`: with text typed and Enter or Tab pressed, the normalised text is
     * emitted and the buffer cleared; otherwise nothing happens.
     */
    method HandleKeyDown(key: string) returns (committed: Option<string>)
      modifies this
      ensures groupedOptions == old(groupedOptions)
      ensures old(inputValue) == "" || !IsCommitKey(key) ==> committed == None && inputValue == old(inputValue)
      ensures old(inputValue) != "" && IsCommitKey(key) ==>
        committed == Some(NormalizeTyped(old(inputValue))) && inputValue == ""
    {
      if inputValue == "" {
        return None;
      }
      committed := None;
      if key == "Enter" || key == "Tab" {
        var val := Trim(inputValue);
        if val != "" && !EndsWith(ToLower(val), ".pdf") {
          val := val + ".pdf";
        }
        committed := Some(val);
        inputValue := "";
      }
    }
  }
}
