/**
 * Where App.js looks for the chosen imposition template: the catalog of preset names,
 * the preset test, the template path written into the configuration, and the
 * thumbnail images shown beside the form.
 */
module TemplatePaths {
  import opened Wrappers
  import opened Text
  import opened Form

  const BasePath := "D:/DesignMerge_Workflows/z_TESTING/Place Job Folders Here/"
  const PresetPath := "D:/DesignMerge_Workflows/z_TESTING/ImpositionPresets/"

  /** The catalog document: group labels, each with its template file names, in document order. */
  type Catalog = seq<(string, seq<string>)>

  /** Some group of the catalog lists the name. */
  predicate Listed(catalog: Catalog, name: string) {
    exists g :: 0 <= g < |catalog| && name in catalog[g].1
  }

  lemma ListedSplit(catalog: Catalog, name: string)
    requires catalog != []
    ensures Listed(catalog, name) <==> name in catalog[0].1 || Listed(catalog[1..], name)
  {
  }

  /** `Object.values(catalog).flat()`: every group's names, one group after another. */
  function Flatten(catalog: Catalog): (r: seq<string>)
    ensures forall name :: name in r <==> Listed(catalog, name)
  {
    if catalog == [] then []
    else
      var rest := Flatten(catalog[1..]);
      assert forall name :: Listed(catalog, name) <==> name in catalog[0].1 || Listed(catalog[1..], name) by {
        forall name ensures Listed(catalog, name) <==> name in catalog[0].1 || Listed(catalog[1..], name) {
          ListedSplit(catalog, name);
        }
      }
      catalog[0].1 + rest
  }

  /** The preset list App.js keeps once its one fetch has settled: empty when the fetch failed. */
  function PresetList(fetched: Option<Catalog>): (r: seq<string>)
    ensures fetched == None ==> r == []
    ensures fetched.Some? ==> forall name :: name in r <==> Listed(fetched.value, name)
  {
    match fetched
    case Some(catalog) => Flatten(catalog)
    case None => []
  }

  /** `presetList.includes(name)`: an undefined name is never a preset. */
  predicate IsPreset(presetList: seq<string>, name: Option<string>) {
    name.Some? && name.value in presetList
  }

  /** `fullPath` in `handleSubmit`: the job's own folder. */
  function FullPath(folder: Option<string>): string {
    BasePath + Interpolate(folder)
  }


  /** The two roots part at their 36th character, so no path is under both. */
  lemma RootsDiffer(rest: string)
    ensures !StartsWith(BasePath + rest, PresetPath)
  {
    assert (BasePath + rest)[35] == 'P';
    assert PresetPath[35] == 'I';
  }

  /**
   * `impositionTemplatePath`: a preset lives in the shared presets folder, anything else in
   * the job folder. The path is under the presets root exactly for preset names, and is
   * then the root followed by the name; every other name lands in the job folder, after a
   * slash.
   */
  function ResolveTemplatePath(presetList: seq<string>, folder: Option<string>, template: Option<string>): (r: string)
    ensures StartsWith(r, PresetPath) <==> IsPreset(presetList, template)
    ensures IsPreset(presetList, template) ==> r[|PresetPath|..] == template.value
    ensures !IsPreset(presetList, template) ==>
      var dir := FullPath(folder) + "/";
      StartsWith(r, dir) && r[|dir|..] == Interpolate(template)
  {
    if IsPreset(presetList, template) then
      var r := PresetPath + template.value;
      assert r[..|PresetPath|] == PresetPath;
      r
    else
      var dir := FullPath(folder) + "/";
      var r := dir + Interpolate(template);
      assert r == BasePath + (Interpolate(folder) + "/" + Interpolate(template));
      RootsDiffer(Interpolate(folder) + "/" + Interpolate(template));
      assert r[..|dir|] == dir;
      r
  }

  /** A name is resolved as a preset exactly when some group of the catalog lists it. */
  lemma ResolvedAgainstCatalog(catalog: Catalog, folder: Option<string>, name: string)
    ensures StartsWith(ResolveTemplatePath(PresetList(Some(catalog)), folder, Some(name)), PresetPath)
      <==> Listed(catalog, name)
  {
  }

  /** Until or unless the catalog loads, every name is taken to be job-local. */
  lemma NoCatalogMeansJobLocal(folder: Option<string>, template: Option<string>)
    ensures ResolveTemplatePath(PresetList(None), folder, template) == FullPath(folder) + "/" + Interpolate(template)
  {
  }

  /** A catalog entry resolves under the presets root; an unknown name under the job folder. */
  lemma ResolutionScenarios()
    ensures var presets := PresetList(Some([("4up", ["Standard4up.pdf"])]));
      && ResolveTemplatePath(presets, Some("JobX"), Some("Standard4up.pdf")) == PresetPath + "Standard4up.pdf"
      && ResolveTemplatePath(presets, Some("JobX"), Some("Custom.pdf")) == BasePath + "JobX/Custom.pdf"
  {
    var catalog: Catalog := [("4up", ["Standard4up.pdf"])];
    assert "Standard4up.pdf" in catalog[0].1;
    var presets := PresetList(Some(catalog));
    assert !Listed(catalog, "Custom.pdf");
  }

  // ---------------------------------------------------------------------------
  // Thumbnails
  // ---------------------------------------------------------------------------

  datatype Side = Side1 | Side2

  function SideNumber(side: Side): string {
    match side
    case Side1 => "1"
    case Side2 => "2"
  }

  /** `template.replace(/\.pdf$/i, "")`. */
  function ThumbnailStem(template: string): string {
    StripTrailingCI(template, ".pdf")
  }

  /**
   * The `src` of the preview image for one side of the sheet: taken from the presets
   * folder exactly for a preset name, and always naming the side's PNG.
   */
  function ThumbnailSource(presetList: seq<string>, folder: Option<string>, template: string, side: Side): (src: string)
    ensures StartsWith(src, "/presets/") <==> template in presetList
    ensures EndsWith(src, "-" + SideNumber(side) + ".png")
  {
    var image := ThumbnailStem(template) + "-" + SideNumber(side) + ".png";
    var tail := "-" + SideNumber(side) + ".png";
    assert image[|image| - |tail|..] == tail;
    if template in presetList then
      var src := "/presets/" + image;
      assert src[..9] == "/presets/";
      assert src[|src| - |tail|..] == image[|image| - |tail|..];
      src
    else
      var src := "/jobs/" + Interpolate(folder) + "/" + image;
      assert src[1] == 'j';
      assert src[|src| - |tail|..] == image[|image| - |tail|..];
      src
  }

  /** Both previews, shown only while the template value is truthy. */
  function ThumbnailSources(presetList: seq<string>, formData: FormData): (r: Option<(string, string)>)
    ensures r.Some? <==> Truthy(Get(formData, ImpositionTemplate))
  {
    var template := Get(formData, ImpositionTemplate);
    if Truthy(template) then
      var folder := Get(formData, JobFolderName);
      Some((ThumbnailSource(presetList, folder, template.value, Side1),
            ThumbnailSource(presetList, folder, template.value, Side2)))
    else None
  }

  /**
   * The preview is taken from the presets folder exactly when the template path is, and
   * names the template without a trailing ".pdf", whatever its case.
   */
  lemma ThumbnailFollowsResolver(presetList: seq<string>, folder: Option<string>, template: string, side: Side)
    ensures var src := ThumbnailSource(presetList, folder, template, side);
      var image := StripTrailingCI(template, ".pdf") + "-" + SideNumber(side) + ".png";
      && (StartsWith(src, "/presets/") <==> StartsWith(ResolveTemplatePath(presetList, folder, Some(template)), PresetPath))
      && (src == "/presets/" + image || src == "/jobs/" + Interpolate(folder) + "/" + image)
  {
  }

  /** For a name ending in ".pdf" in any case, the preview names exactly the part before it. */
  lemma ThumbnailOfPdfName(presetList: seq<string>, folder: Option<string>, stem: string, ext: string, side: Side)
    requires ToLower(ext) == ".pdf"
    ensures var template := stem + ext;
      var src := ThumbnailSource(presetList, folder, template, side);
      var image := stem + "-" + SideNumber(side) + ".png";
      && (StartsWith(src, "/presets/") <==> StartsWith(ResolveTemplatePath(presetList, folder, Some(template)), PresetPath))
      && (src == "/presets/" + image || src == "/jobs/" + Interpolate(folder) + "/" + image)
  {
    var template := stem + ext;
    ThumbnailFollowsResolver(presetList, folder, template, side);
    assert |ext| == 4;
    assert template[..|template| - 4] == stem;
    ToLowerAppend(stem, ext);
    assert ToLower(template)[|template| - 4..] == ToLower(ext);
  }
}
