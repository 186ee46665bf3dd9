/**
 * The configuration document `handleSubmit` in App.js assembles on submit, and the name
 * of the file it is offered under. The document is kept as a value (groups of settings
 * objects); its serialisation to JSON text is not modelled.
 */
module ConfigOutput {
  import opened Wrappers
  import opened Text
  import opened Form
  import opened TemplatePaths

  /** One key of a settings object; a None value is JavaScript `undefined`, which JSON drops. */
  datatype Setting = Setting(key: string, value: Option<string>)

  /** A settings object, keys in the order the source writes them. */
  type Settings = seq<Setting>

  datatype OutputConfig = OutputConfig(
    jsonId: string,
    description: string,
    commonProperties: seq<Settings>,
    vdpMergeProperties: seq<Settings>,
    preflightProperties: seq<Settings>,
    multiupProperties: seq<Settings>,
    packagerProperties: seq<Settings>,
    pdfImposerProperties: seq<Settings>,
    customScriptProperties: seq<Settings>,
    samples: seq<Settings>)

  function Lit(key: string, value: string): Setting {
    Setting(key, Some(value))
  }

  /** What reading `key` back from the settings object gives: its value, or None if absent or undefined. */
  function Lookup(settings: Settings, key: string): (r: Option<string>)
    ensures r.Some? ==> exists i :: 0 <= i < |settings| && settings[i] == Setting(key, r)
    ensures (forall i :: 0 <= i < |settings| ==> settings[i].key != key) ==> r == None
  {
    if settings == [] then None
    else if settings[0].key == key then settings[0].value
    else
      var r := Lookup(settings[1..], key);
      assert forall i :: 1 <= i < |settings| ==> settings[i] == settings[1..][i - 1];
      r
  }

  // ---------------------------------------------------------------------------
  // The literal groups
  // ---------------------------------------------------------------------------

  const CommonDefaults: Settings := [
    Lit("kDDFName", "Document"),
    Lit("kTemplateSearchPath", ""),
    Lit("kGraphicSearchPath", ""),
    Lit("kSearchSubfolders", "Yes"),
    Lit("kInputCleanupActionOnFail", "Advance in Flow"),
    Lit("kTreatWarningsAsErrors", "Yes"),
    Lit("kDebugVerboseLogging", "No"),
    Lit("kDebugShowDocumentWindows", "No")
  ]

  /** The literal keys of `VDPMergeProperties` that come before the record range. */
  const VdpMergeHead: Settings := [
    Lit("kOutputFormat", "PDF/VT"),
    Lit("kPDFPresetName", "[High Quality Print]"),
    Lit("kPDFIncludeMetadata", "Yes"),
    Lit("kPDFPreflightCaching", "Yes"),
    Lit("kPDFVDPOptimizerMode", "Advanced"),
    Lit("kPPMLBleedAmount", "0"),
    Lit("kPPMLCreateBooklets", "No"),
    Lit("kPPMLDownloadFonts", "Yes"),
    Lit("kPSEnableCaching", "No"),
    Lit("kVerifyFixedGraphicsBeforeMerge", "No"),
    Lit("kCopyFitMode", "Tagged Frames Only"),
    Lit("kPrinterName", ""),
    Lit("kAlternateOutputFolder", ""),
    Lit("kAlternateOutputAction", "Advance in Flow"),
    Lit("kAlternateOutputCleanup", "Yes"),
    Lit("kMergeType", "Standard"),
    Lit("kVDPOptimizerMode", "Off")
  ]

  function VdpMergeSettings(pageSetsPerJob: Option<string>, startRecord: Option<string>, endRecord: Option<string>): Settings {
    VdpMergeHead
    + [Setting(PageSetsPerJob, pageSetsPerJob), Setting(StartRecord, startRecord), Setting(EndRecord, endRecord)]
    + [Lit("kSkipFirstRecord", "Yes"), Lit("kStepAmount", "Default")]
  }

  const PreflightDefaults: Settings := [
    Lit("kFailIfMissingFixed", "Yes"),
    Lit("kFailIfMissingVariable", "Yes"),
    Lit("kFailIfDamagedVariable", "Yes"),
    Lit("kFailIfMissingFonts", "Yes"),
    Lit("kFailIfOversetText", "Yes"),
    Lit("kFailIfMismatchColumns", "No"),
    Lit("kPreflightStorePreflightInfo", "Yes")
  ]

  const MultiupDefaults: Settings := [
    Lit("kMultiupTemplatePath", "Automatic"),
    Lit("kMultiupFilenamePrefix", "_IMPOSED"),
    Lit("kMultiupSourcePage", "All Pages"),
    Lit("kMultiupDestPage", "All Pages"),
    Lit("kMultiupCopyStyles", "Yes"),
    Lit("kMultiupCopySwatches", "Yes"),
    Lit("kMultiupCopyLayers", "Yes"),
    Lit("kMultiupCopyDDF", "Yes"),
    Lit("kMultiupRemoveFrames", "Yes"),
    Lit("kMultiupKeepGroups", "Yes"),
    Lit("kMultiupFailIfNoMultiupTemplatePath", "Yes")
  ]

  function PackagerSettings(packageName: string): Settings {
    [
      Lit("kPackagerIncludeFixedGraphics", "Yes"),
      Lit("kPackagerIncludeVariableAssets", "Yes"),
      Lit("kPackagerIncludeFonts", "Yes"),
      Lit("kPackagerConvertFullPathsToLocalPaths", "No"),
      Lit("kPackagerClearExistingVariableImages", "No"),
      Lit("kPackagerPackageName", packageName),
      Lit("kPackagerMultiupTemplatePath", "Automatic")
    ]
  }

  function PdfImposerSettings(templatePath: string, inputFilePath: string, imposeType: Option<string>): Settings {
    [
      Lit("kPDFImposerTemplatePath", templatePath),
      Lit("kPDFImposerInputFilePath", inputFilePath),
      Lit("kPDFImposerOutputFilenameFormat", "IMPOSED-<PDF_Name>"),
      Setting(ImposeType, imposeType),
      Lit("kPDFImposerDuplexMode", "No"),
      Lit("kPDFImposerLabelSortColumnCount", "1"),
      Lit("kPDFImposerLabelSortRowCount", "1"),
      Lit("kPDFImposerLabelSortPadSetting", "Last Sheet"),
      Lit("kPDFImposerLabelSortSequencing", "Vertical"),
      Lit("kPDFImposerLabelSortReverse", "No"),
      Lit("kPDFImposerCropTo", "Automatic")
    ]
  }

  const CustomScriptDefaults: Settings := [
    Lit("kScriptToRun", "Automatic"),
    Lit("kCustomScriptFailIfNoTemplate", "Yes"),
    Lit("kCustomScriptFailIfNoDatabase", "Yes")
  ]

  /** The keys whose values come from the form rather than from the literal defaults. */
  const UserKeys: set<string> := {
    PageSetsPerJob, StartRecord, EndRecord, "kPackagerPackageName",
    "kPDFImposerTemplatePath", "kPDFImposerInputFilePath", ImposeType
  }

  // ---------------------------------------------------------------------------
  // Assembly
  // ---------------------------------------------------------------------------

  /** `output` in `handleSubmit`. */
  function Assemble(presetList: seq<string>, formData: FormData): (r: OutputConfig)
    ensures r.jsonId == "MPSAUTOMATION" && r.description == "MPS Properties"
    ensures |r.commonProperties| == |r.vdpMergeProperties| == |r.preflightProperties| == 1
    ensures |r.multiupProperties| == |r.packagerProperties| == |r.pdfImposerProperties| == 1
    ensures |r.customScriptProperties| == 1
    ensures |r.samples| == if WantsSamples(formData) then 1 else 0
  {
    var folder := Get(formData, JobFolderName);
    var templatePath := ResolveTemplatePath(presetList, folder, Get(formData, ImpositionTemplate));
    OutputConfig(
      "MPSAUTOMATION",
      "MPS Properties",
      [CommonDefaults],
      [VdpMergeSettings(Get(formData, PageSetsPerJob), Get(formData, StartRecord), Get(formData, EndRecord))],
      [PreflightDefaults],
      [MultiupDefaults],
      [PackagerSettings(Interpolate(folder) + "-Pkg")],
      [PdfImposerSettings(templatePath, FullPath(folder), Get(formData, ImposeType))],
      [CustomScriptDefaults],
      if WantsSamples(formData) then
        [[Setting(NeedsSampleOutput, Get(formData, NeedsSampleOutput)),
          Setting(NeedsSampleWatermark, Get(formData, NeedsSampleWatermark)),
          Setting(SampleStartRecord, Get(formData, SampleStartRecord)),
          Setting(SampleEndRecord, Get(formData, SampleEndRecord))]]
      else [])
  }

  /** `a.download`: the name of the file the document is offered as. */
  function DownloadFileName(formData: FormData): (name: string)
    ensures StartsWith(name, Interpolate(Get(formData, JobFolderName)))
    ensures EndsWith(name, "_MPS_Settings.json")
    ensures |name| == |Interpolate(Get(formData, JobFolderName))| + |"_MPS_Settings.json"|
  {
    var folder := Interpolate(Get(formData, JobFolderName));
    var name := folder + "_MPS_Settings.json";
    assert name[..|folder|] == folder;
    name
  }

  function KeysOf(settings: Settings): (keys: seq<string>)
    ensures |keys| == |settings|
    ensures forall i :: 0 <= i < |settings| ==> keys[i] == settings[i].key
  {
    seq(|settings|, i requires 0 <= i < |settings| => settings[i].key)
  }

  /** Reading a key back gives the value of its first occurrence. */
  lemma {:induction false} LookupFirst(settings: Settings, i: nat, key: string)
    requires i < |settings| && settings[i].key == key
    requires key !in KeysOf(settings[..i])
    ensures Lookup(settings, key) == settings[i].value
  {
    if i > 0 {
      assert settings[0].key == KeysOf(settings[..i])[0];
      assert KeysOf(settings[1..][..i - 1]) == KeysOf(settings[..i])[1..];
      LookupFirst(settings[1..], i - 1, key);
    }
  }

  lemma RangeKeysNotInVdpHead()
    ensures PageSetsPerJob !in KeysOf(VdpMergeHead)
    ensures StartRecord !in KeysOf(VdpMergeHead)
    ensures EndRecord !in KeysOf(VdpMergeHead)
  {
  }

  /** Reading the record-range fields back gives the form's values unchanged. */
  lemma RecordRangeRecovered(presetList: seq<string>, formData: FormData)
    ensures var vdp := Assemble(presetList, formData).vdpMergeProperties[0];
      && Lookup(vdp, PageSetsPerJob) == Get(formData, PageSetsPerJob)
      && Lookup(vdp, StartRecord) == Get(formData, StartRecord)
      && Lookup(vdp, EndRecord) == Get(formData, EndRecord)
  {
    var vdp := Assemble(presetList, formData).vdpMergeProperties[0];
    RangeKeysNotInVdpHead();
    assert vdp[..17] == VdpMergeHead;
    assert KeysOf(vdp[..18]) == KeysOf(VdpMergeHead) + [PageSetsPerJob];
    assert KeysOf(vdp[..19]) == KeysOf(VdpMergeHead) + [PageSetsPerJob, StartRecord];
    LookupFirst(vdp, 17, PageSetsPerJob);
    LookupFirst(vdp, 18, StartRecord);
    LookupFirst(vdp, 19, EndRecord);
  }

  /** The packager settings carry the package name they were built with. */
  lemma PackagerNameRecovered(packageName: string)
    ensures Lookup(PackagerSettings(packageName), "kPackagerPackageName") == Some(packageName)
  {
    var packager := PackagerSettings(packageName);
    assert packager[5].key == "kPackagerPackageName" && "kPackagerPackageName" !in KeysOf(packager[..5]);
    LookupFirst(packager, 5, "kPackagerPackageName");
  }

  /** The imposer settings carry the template path, input path and impose type they were built with. */
  lemma ImposerFieldsRecovered(templatePath: string, inputFilePath: string, imposeType: Option<string>)
    ensures var imposer := PdfImposerSettings(templatePath, inputFilePath, imposeType);
      && Lookup(imposer, "kPDFImposerTemplatePath") == Some(templatePath)
      && Lookup(imposer, "kPDFImposerInputFilePath") == Some(inputFilePath)
      && Lookup(imposer, ImposeType) == imposeType
  {
    var imposer := PdfImposerSettings(templatePath, inputFilePath, imposeType);
    LookupFirst(imposer, 0, "kPDFImposerTemplatePath");
    assert imposer[1].key == "kPDFImposerInputFilePath" && "kPDFImposerInputFilePath" !in KeysOf(imposer[..1]);
    LookupFirst(imposer, 1, "kPDFImposerInputFilePath");
    assert imposer[3].key == ImposeType && ImposeType !in KeysOf(imposer[..3]);
    LookupFirst(imposer, 3, ImposeType);
  }

  /** Reading back the imposer and packager fields gives the resolved path, the job folder and the name derived from it. */
  lemma JobFieldsRecovered(presetList: seq<string>, formData: FormData)
    ensures var r := Assemble(presetList, formData);
      var folder := Get(formData, JobFolderName);
      && Lookup(r.packagerProperties[0], "kPackagerPackageName") == Some(Interpolate(folder) + "-Pkg")
      && Lookup(r.pdfImposerProperties[0], "kPDFImposerInputFilePath") == Some(BasePath + Interpolate(folder))
      && Lookup(r.pdfImposerProperties[0], "kPDFImposerTemplatePath")
         == Some(ResolveTemplatePath(presetList, folder, Get(formData, ImpositionTemplate)))
      && Lookup(r.pdfImposerProperties[0], ImposeType) == Get(formData, ImposeType)
  {
    var folder := Get(formData, JobFolderName);
    PackagerNameRecovered(Interpolate(folder) + "-Pkg");
    ImposerFieldsRecovered(ResolveTemplatePath(presetList, folder, Get(formData, ImpositionTemplate)),
      FullPath(folder), Get(formData, ImposeType));
  }

  /** The one sample entry, when present, carries the four sample fields as the form holds them. */
  lemma SamplesRecovered(presetList: seq<string>, formData: FormData)
    requires WantsSamples(formData)
    ensures var s := Assemble(presetList, formData).samples[0];
      && Lookup(s, NeedsSampleOutput) == Some("Yes")
      && Lookup(s, NeedsSampleWatermark) == Get(formData, NeedsSampleWatermark)
      && Lookup(s, SampleStartRecord) == Get(formData, SampleStartRecord)
      && Lookup(s, SampleEndRecord) == Get(formData, SampleEndRecord)
  {
    var s := Assemble(presetList, formData).samples[0];
    LookupFirst(s, 0, NeedsSampleOutput);
    LookupFirst(s, 1, NeedsSampleWatermark);
    LookupFirst(s, 2, SampleStartRecord);
    LookupFirst(s, 3, SampleEndRecord);
  }

  /** Two settings objects with the same keys in the same order, differing at most at the keys in `varying`. */
  predicate SameExcept(s: Settings, t: Settings, varying: set<string>) {
    && |s| == |t|
    && (forall i :: 0 <= i < |s| ==> s[i].key == t[i].key)
    && (forall i :: 0 <= i < |s| && s[i].key !in varying ==> s[i].value == t[i].value)
  }

  lemma {:induction false} LookupSameExcept(s: Settings, t: Settings, varying: set<string>, key: string)
    requires SameExcept(s, t, varying)
    requires key !in varying
    ensures Lookup(s, key) == Lookup(t, key)
  {
    if s != [] && s[0].key != key {
      LookupSameExcept(s[1..], t[1..], varying, key);
    }
  }

  lemma VdpMergeVariesOnlyInRange(a1: Option<string>, b1: Option<string>, c1: Option<string>,
                                  a2: Option<string>, b2: Option<string>, c2: Option<string>)
    ensures SameExcept(VdpMergeSettings(a1, b1, c1), VdpMergeSettings(a2, b2, c2), UserKeys)
  {
  }

  lemma PackagerVariesOnlyInName(n1: string, n2: string)
    ensures SameExcept(PackagerSettings(n1), PackagerSettings(n2), UserKeys)
  {
  }

  lemma PdfImposerVariesOnlyInJobFields(p1: string, i1: string, t1: Option<string>,
                                        p2: string, i2: string, t2: Option<string>)
    ensures SameExcept(PdfImposerSettings(p1, i1, t1), PdfImposerSettings(p2, i2, t2), UserKeys)
  {
  }

  /** Every literal default is the same whatever the form holds: only the user-derived keys vary. */
  lemma LiteralDefaultsFixed(p1: seq<string>, f1: FormData, p2: seq<string>, f2: FormData, key: string)
    requires key !in UserKeys
    ensures var r1 := Assemble(p1, f1);
      var r2 := Assemble(p2, f2);
      && r1.commonProperties == r2.commonProperties
      && r1.preflightProperties == r2.preflightProperties
      && r1.multiupProperties == r2.multiupProperties
      && r1.customScriptProperties == r2.customScriptProperties
      && Lookup(r1.vdpMergeProperties[0], key) == Lookup(r2.vdpMergeProperties[0], key)
      && Lookup(r1.packagerProperties[0], key) == Lookup(r2.packagerProperties[0], key)
      && Lookup(r1.pdfImposerProperties[0], key) == Lookup(r2.pdfImposerProperties[0], key)
  {
    var r1 := Assemble(p1, f1);
    var r2 := Assemble(p2, f2);
    VdpMergeVariesOnlyInRange(Get(f1, PageSetsPerJob), Get(f1, StartRecord), Get(f1, EndRecord),
                              Get(f2, PageSetsPerJob), Get(f2, StartRecord), Get(f2, EndRecord));
    PackagerVariesOnlyInName(Interpolate(Get(f1, JobFolderName)) + "-Pkg", Interpolate(Get(f2, JobFolderName)) + "-Pkg");
    PdfImposerVariesOnlyInJobFields(
      ResolveTemplatePath(p1, Get(f1, JobFolderName), Get(f1, ImpositionTemplate)), FullPath(Get(f1, JobFolderName)), Get(f1, ImposeType),
      ResolveTemplatePath(p2, Get(f2, JobFolderName), Get(f2, ImpositionTemplate)), FullPath(Get(f2, JobFolderName)), Get(f2, ImposeType));
    LookupSameExcept(r1.vdpMergeProperties[0], r2.vdpMergeProperties[0], UserKeys, key);
    LookupSameExcept(r1.packagerProperties[0], r2.packagerProperties[0], UserKeys, key);
    LookupSameExcept(r1.pdfImposerProperties[0], r2.pdfImposerProperties[0], UserKeys, key);
  }
}
