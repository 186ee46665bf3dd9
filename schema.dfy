/**
 * The form's schema and the conditional composer of App.js (`formSchema`): the base
 * schema is fixed; the active schema is derived from the `NeedsSampleOutput` value.
 */
module Schema {
  import opened Wrappers
  import opened Form

  /** One entry of `properties`: its JSON type, title, optional default and optional enum. */
  datatype Property = Property(
    propType: string,
    title: string,
    defaultValue: Option<string>,
    enumValues: Option<seq<string>>)

  datatype Schema = Schema(
    title: string,
    schemaType: string,
    properties: map<string, Property>,
    required: seq<string>)

  function StringField(title: string, default: Option<string>): Property {
    Property("string", title, default, None)
  }

  /** `baseSchema` of App.js, field by field. */
  const BaseSchema: Schema := Schema(
    "MPS Automation Job Setup",
    "object",
    map[
      JobFolderName := StringField("Folder Name (within job folder)", None),
      ImpositionTemplate := StringField("Imposition Template", None),
      PageSetsPerJob := StringField("Records Per Lift", Some("Default")),
      StartRecord := StringField("Start Record", Some("Default")),
      EndRecord := StringField("End Record", Some("Default")),
      ImposeType := Property("string", "Imposition Type", Some("Cut & Stack"),
        Some(["Sequential", "Cut & Stack", "Label Sort", "Step & Repeat", "2u Saddle Stitch"])),
      NeedsSampleOutput := Property("string", "Needs Sample Output?", None, Some(["Yes", "No"])),
      NeedsSampleWatermark := Property("string", "Apply Sample Watermark?", Some("No"), Some(["Yes", "No"])),
      SampleStartRecord := StringField("Sample Start Record", Some("Default")),
      SampleEndRecord := StringField("Sample End Record", Some("Default"))
    ],
    [JobFolderName, ImpositionTemplate, NeedsSampleOutput])

  /**
   * `[...new Set(s)]`: the elements of `s` without repetitions, each kept at its first
   * occurrence.
   */
  function Dedup(s: seq<string>): (r: seq<string>)
    ensures Distinct(r)
    ensures forall x :: x in r <==> x in s
  {
    if s == [] then []
    else
      var front := Dedup(s[..|s| - 1]);
      assert forall x :: x in s <==> x in s[..|s| - 1] || x == s[|s| - 1];
      if s[|s| - 1] in front then front else front + [s[|s| - 1]]
  }

  /** `s.filter((r) => !SampleFields.includes(r))`. */
  function WithoutSampleFields(s: seq<string>): (r: seq<string>)
    ensures forall x :: x in r <==> x in s && x !in SampleFields
  {
    if s == [] then []
    else
      var rest := WithoutSampleFields(s[1..]);
      assert forall x :: x in s <==> x == s[0] || x in s[1..];
      if s[0] in SampleFields then rest else [s[0]] + rest
  }

  /**
   * `formSchema`: the schema the renderer receives for a given `NeedsSampleOutput` value.
   * The sample fields are shown and required exactly when the value is "Yes"; every other
   * field keeps its definition and whether it is required.
   */
  function Compose(base: Schema, needsSampleOutput: Option<string>): (r: Schema)
    ensures r.title == base.title && r.schemaType == base.schemaType
    ensures forall k :: k in r.properties <==>
      k in base.properties && (needsSampleOutput == Some("Yes") || k !in SampleFields)
    ensures forall k :: k in r.properties ==> r.properties[k] == base.properties[k]
    ensures forall x :: x in r.required <==>
      if needsSampleOutput == Some("Yes") then x in base.required || x in SampleFields
      else x in base.required && x !in SampleFields
  {
    if needsSampleOutput == Some("Yes") then
      assert forall x :: x in base.required + SampleFields <==> x in base.required || x in SampleFields;
      base.(required := Dedup(base.required + SampleFields))
    else
      base.(properties := base.properties - (set f | f in SampleFields),
            required := WithoutSampleFields(base.required))
  }

  // ---------------------------------------------------------------------------
  // Lemmas about the list helpers
  // ---------------------------------------------------------------------------

  lemma {:induction false} DedupOfDistinct(s: seq<string>)
    requires Distinct(s)
    ensures Dedup(s) == s
  {
    if s != [] {
      DedupOfDistinct(s[..|s| - 1]);
    }
  }

  /** Deduplicating `s + t` keeps the deduplicated `s` in front. */
  lemma {:induction false} DedupKeepsPrefix(s: seq<string>, t: seq<string>)
    ensures |Dedup(s)| <= |Dedup(s + t)| && Dedup(s + t)[..|Dedup(s)|] == Dedup(s)
  {
    if t == [] {
      assert s + t == s;
    } else {
      assert (s + t)[..|s + t| - 1] == s + t[..|t| - 1];
      DedupKeepsPrefix(s, t[..|t| - 1]);
    }
  }

  /** Appending elements that are already present changes nothing. */
  lemma {:induction false} DedupAppendPresent(s: seq<string>, t: seq<string>)
    requires forall x :: x in t ==> x in s
    ensures Dedup(s + t) == Dedup(s)
  {
    if t == [] {
      assert s + t == s;
    } else {
      assert (s + t)[..|s + t| - 1] == s + t[..|t| - 1];
      DedupAppendPresent(s, t[..|t| - 1]);
    }
  }

  lemma {:induction false} WithoutSampleFieldsOfClean(s: seq<string>)
    requires forall x :: x in s ==> x !in SampleFields
    ensures WithoutSampleFields(s) == s
  {
    if s != [] {
      WithoutSampleFieldsOfClean(s[1..]);
    }
  }

  // ---------------------------------------------------------------------------
  // What the composer promises
  // ---------------------------------------------------------------------------

  /**
   * With samples requested every property is kept, and the required list holds the base
   * required fields and the three sample fields, each once, with the (duplicate-free)
   * base list left in front.
   */
  lemma ComposeRequested(base: Schema)
    ensures var r := Compose(base, Some("Yes"));
      && r.title == base.title && r.schemaType == base.schemaType
      && r.properties == base.properties
      && Distinct(r.required)
      && (forall x :: x in r.required <==> x in base.required || x in SampleFields)
      && (Distinct(base.required) ==>
            |base.required| <= |r.required| && r.required[..|base.required|] == base.required)
  {
    var r := Compose(base, Some("Yes"));
    assert forall x :: x in base.required + SampleFields <==> x in base.required || x in SampleFields;
    if Distinct(base.required) {
      DedupKeepsPrefix(base.required, SampleFields);
      DedupOfDistinct(base.required);
    }
  }

  /**
   * With samples not requested (any other value, absent included) exactly the three
   * sample properties are gone, every other property is unchanged, and the required list
   * is the base list without sample fields.
   */
  lemma ComposeNotRequested(base: Schema, needsSampleOutput: Option<string>)
    requires needsSampleOutput != Some("Yes")
    ensures var r := Compose(base, needsSampleOutput);
      && r.title == base.title && r.schemaType == base.schemaType
      && r.properties.Keys == base.properties.Keys - (set f | f in SampleFields)
      && (forall k :: k in r.properties ==> r.properties[k] == base.properties[k])
      && (forall x :: x in r.required ==> x !in SampleFields)
      && (forall x :: x in r.required <==> x in base.required && x !in SampleFields)
      && ((forall x :: x in base.required ==> x !in SampleFields) ==> r.required == base.required)
  {
    if forall x :: x in base.required ==> x !in SampleFields {
      WithoutSampleFieldsOfClean(base.required);
    }
  }

  /** The required list with samples is the one without them plus exactly the sample fields. */
  lemma RequestedRequiredExtendsNotRequested(base: Schema, other: Option<string>)
    requires other != Some("Yes")
    ensures forall x :: x in Compose(base, Some("Yes")).required <==>
      x in Compose(base, other).required || x in SampleFields
  {
  }

  /** Composing again with the same flag changes nothing. */
  lemma ComposeIdempotent(base: Schema, needsSampleOutput: Option<string>)
    ensures Compose(Compose(base, needsSampleOutput), needsSampleOutput) == Compose(base, needsSampleOutput)
  {
    var once := Compose(base, needsSampleOutput);
    if needsSampleOutput == Some("Yes") {
      var d := Dedup(base.required + SampleFields);
      assert forall x :: x in SampleFields ==> x in base.required + SampleFields;
      DedupAppendPresent(d, SampleFields);
      DedupOfDistinct(d);
    } else {
      WithoutSampleFieldsOfClean(once.required);
      var gone := set f | f in SampleFields;
      assert once.properties - gone == once.properties;
    }
  }

  /** On the form's own base schema the composer gives exactly the lists App.js intends. */
  lemma BaseSchemaComposedRequired(other: Option<string>)
    requires other != Some("Yes")
    ensures Compose(BaseSchema, Some("Yes")).required == BaseSchema.required + SampleFields
    ensures Compose(BaseSchema, other).required == BaseSchema.required
  {
    var all := BaseSchema.required + SampleFields;
    assert Distinct(all);
    DedupOfDistinct(all);
    assert forall x :: x in BaseSchema.required ==> x !in SampleFields;
    WithoutSampleFieldsOfClean(BaseSchema.required);
  }

  /** Without samples the form shows exactly seven fields. */
  lemma BaseSchemaComposedProperties(other: Option<string>)
    requires other != Some("Yes")
    ensures Compose(BaseSchema, other).properties.Keys ==
      {JobFolderName, ImpositionTemplate, PageSetsPerJob, StartRecord, EndRecord, ImposeType, NeedsSampleOutput}
  {
  }
}
