/** The second `af-pwa:generate` command (src/Console/Commands/GeneratePWA.php):
    the same generation steps with a `--validate` pass at the end, its own
    icon generation, a manifest rewrite without filtering, and the three
    validations with the messages they report. It shares the selection of
    steps and the service-worker minifier with `GenerateCommand`. */
module GeneratePwa {
  import opened Wrappers
  import opened Text
  import opened ManifestJson
  import GenerateCommand

  // ---------------------------------------------------------------- steps

  datatype Flags = Flags(generate: GenerateCommand.Flags, validate: bool)

  /** The steps of `handle`: those of `GenerateCommand` in the same order,
      then the validation when `--validate` is given. */
  function Steps(f: Flags): (r: seq<GenerateCommand.Step>)
    ensures GenerateCommand.Validate in r <==> f.validate
    ensures f.validate ==> r[|r| - 1] == GenerateCommand.Validate
    ensures forall i, j :: 0 <= i < j < |r| ==> GenerateCommand.Rank(r[i]) < GenerateCommand.Rank(r[j])
  {
    GenerateCommand.Steps(f.generate) + (if f.validate then [GenerateCommand.Validate] else [])
  }

  /** Apart from the validation, both commands run the same steps. */
  lemma StepsAgree(f: Flags)
    ensures var g := GenerateCommand.Steps(f.generate);
            |Steps(f)| == |g| + (if f.validate then 1 else 0) && Steps(f)[..|g|] == g
  {
  }

  // ---------------------------------------------------------------- icons

  /** `generateIcons()`: the base icon is `favicon.svg`, else `favicon.ico`;
      with one, every size and then the two maskable sizes are plain copies
      of it; without one, placeholders are written at the icon paths. */
  function BaseIcon(present: set<string>): (r: Option<string>)
    ensures r.Some? ==> r.value in present
    ensures r.None? <==> "favicon.svg" !in present && "favicon.ico" !in present
  {
    if "favicon.svg" in present then Some("favicon.svg")
    else if "favicon.ico" in present then Some("favicon.ico")
    else None
  }

  /** The files `generateIcons` writes when every copy succeeds. */
  function IconRunFiles(base: Option<string>): seq<string> {
    var sizes := GenerateCommand.IconSizes;
    var masks := GenerateCommand.MaskableSizes;
    seq(|sizes|, i requires 0 <= i < |sizes| => GenerateCommand.IconPath(sizes[i]))
    + (if base.Some? then seq(|masks|, i requires 0 <= i < |masks| => GenerateCommand.MaskablePath(masks[i])) else [])
  }

  method GenerateIcons(present: set<string>) returns (written: seq<string>)
    ensures written == IconRunFiles(BaseIcon(present))
  {
    var base := BaseIcon(present);
    var sizes := GenerateCommand.IconSizes;
    written := [];
    for i := 0 to |sizes|
      invariant written == seq(i, k requires 0 <= k < i => GenerateCommand.IconPath(sizes[k]))
    {
      written := written + [GenerateCommand.IconPath(sizes[i])];
    }
    if base.Some? {
      var masks := GenerateCommand.MaskableSizes;
      var plain := written;
      for i := 0 to |masks|
        invariant written == plain + seq(i, k requires 0 <= k < i => GenerateCommand.MaskablePath(masks[k]))
      {
        written := written + [GenerateCommand.MaskablePath(masks[i])];
      }
    }
  }

  /** This command always writes every `.png` icon path, whatever the base
      icon is. */
  lemma PngIconsWritten(base: Option<string>, i: nat)
    requires i < |GenerateCommand.IconSizes|
    ensures GenerateCommand.IconPath(GenerateCommand.IconSizes[i]) in IconRunFiles(base)
  {
    assert IconRunFiles(base)[i] == GenerateCommand.IconPath(GenerateCommand.IconSizes[i]);
  }

  // ---------------------------------------------------------------- manifest

  /** `optimizeManifest()`: the file is decoded to an array and encoded
      again without filtering, so `{}` and objects keyed 0, 1, 2, ... come
      back as lists; text that is not JSON decodes to `null` and is written
      back as `null`. What is written is stable: optimizing it again
      changes nothing. */
  function ReencodedManifest(file: Option<Decoded>): (r: Option<Json>)
    ensures r.None? <==> file.None?
    ensures file == Some(Invalid) ==> r == Some(Null)
    ensures forall v :: file == Some(Value(v)) ==> r == Some(RoundTrip(v))
    ensures file == Some(Value(Object([]))) ==> r == Some(List([]))
    ensures r.Some? ==> RoundTrip(r.value) == r.value
  {
    match file
    case None => None
    case Some(Invalid) => Some(Null)
    case Some(Value(v)) =>
      RoundTripIdempotent(v);
      IndexKeyedObjectIsList([]);
      Some(RoundTrip(v))
  }

  // ---------------------------------------------------------------- validation

  const RequiredFields: seq<string> :=
    ["name", "short_name", "start_url", "display", "theme_color", "background_color", "icons"]

  const MissingFieldPrefix: string := "Missing required field: "

  function MissingField(field: string): string {
    MissingFieldPrefix + field
  }

  lemma MissingFieldInjective(f: string, g: string)
    requires MissingField(f) == MissingField(g)
    ensures f == g
  {
    assert f == MissingField(f)[|MissingFieldPrefix|..];
    assert g == MissingField(g)[|MissingFieldPrefix|..];
  }

  /** One message per field of `fields` that `isset` does not find, in the
      order of `fields`. */
  function MissingFields(manifest: Json, fields: seq<string>): (r: seq<string>)
    ensures |r| <= |fields|
    ensures r == [] <==> forall i :: 0 <= i < |fields| ==> IsSet(manifest, fields[i])
    decreases |fields|
  {
    if fields == [] then []
    else
      var last := fields[|fields| - 1];
      var init := MissingFields(manifest, fields[..|fields| - 1]);
      assert forall i :: 0 <= i < |fields| - 1 ==> fields[..|fields| - 1][i] == fields[i];
      init + (if IsSet(manifest, last) then [] else [MissingField(last)])
  }

  /** A field is reported exactly when it is required and not set. */
  lemma {:induction false} MissingFieldsExact(manifest: Json, fields: seq<string>, f: string)
    ensures MissingField(f) in MissingFields(manifest, fields) <==> f in fields && !IsSet(manifest, f)
    decreases |fields|
  {
    if fields != [] {
      var last := fields[|fields| - 1];
      var init := fields[..|fields| - 1];
      MissingFieldsExact(manifest, init, f);
      assert fields == init + [last];
      if MissingField(f) == MissingField(last) {
        MissingFieldInjective(f, last);
      }
    }
  }

  /** What `validateManifest()` returns for the file as decoded, `None`
      when it does not exist. */
  function ManifestErrors(file: Option<Decoded>): (r: seq<string>)
    ensures file.None? ==> r == ["Manifest file not found"]
    ensures file == Some(Invalid) ==> r == ["Invalid JSON format"]
  {
    match file
    case None => ["Manifest file not found"]
    case Some(Invalid) => ["Invalid JSON format"]
    case Some(Value(v)) => MissingFields(v, RequiredFields)
  }

  /** `validateManifest()`. */
  method ValidateManifest(file: Option<Decoded>) returns (errors: seq<string>)
    ensures errors == ManifestErrors(file)
  {
    if file.None? {
      return ["Manifest file not found"];
    }
    if file.value.Invalid? {
      return ["Invalid JSON format"];
    }
    var manifest := file.value.v;
    errors := [];
    for i := 0 to |RequiredFields|
      invariant errors == MissingFields(manifest, RequiredFields[..i])
    {
      assert RequiredFields[..i + 1][..i] == RequiredFields[..i];
      if !IsSet(manifest, RequiredFields[i]) {
        errors := errors + [MissingField(RequiredFields[i])];
      }
    }
    assert RequiredFields[..|RequiredFields|] == RequiredFields;
  }

  /** A manifest passes exactly when every required field is set, and a
      reported field is one that is required and not set. */
  lemma ManifestValidIff(manifest: Json, f: string)
    ensures ManifestErrors(Some(Value(manifest))) == [] <==>
              forall i :: 0 <= i < |RequiredFields| ==> IsSet(manifest, RequiredFields[i])
    ensures MissingField(f) in ManifestErrors(Some(Value(manifest))) <==> f in RequiredFields && !IsSet(manifest, f)
  {
    MissingFieldsExact(manifest, RequiredFields, f);
  }

  /** After `--optimize` has rewritten a file that was not JSON, validation
      no longer says so: it reports each of the seven required fields as
      missing. */
  lemma InvalidManifestAfterOptimize()
    ensures var after := ReencodedManifest(Some(Invalid));
            ManifestErrors(Some(Value(after.value))) == seq(|RequiredFields|, i requires 0 <= i < |RequiredFields| => MissingField(RequiredFields[i]))
  {
    var all := seq(|RequiredFields|, i requires 0 <= i < |RequiredFields| => MissingField(RequiredFields[i]));
    assert MissingFields(Null, RequiredFields[..0]) == [];
    forall k | 0 <= k <= |RequiredFields|
      ensures MissingFields(Null, RequiredFields[..k]) == all[..k]
    {
      NullMissesAll(k);
    }
    assert RequiredFields[..|RequiredFields|] == RequiredFields;
  }

  lemma {:induction false} NullMissesAll(k: nat)
    requires k <= |RequiredFields|
    ensures MissingFields(Null, RequiredFields[..k])
            == seq(k, i requires 0 <= i < k => MissingField(RequiredFields[i]))
    decreases k
  {
    if k > 0 {
      NullMissesAll(k - 1);
      assert RequiredFields[..k][..k - 1] == RequiredFields[..k - 1];
    }
  }

  const RequiredEvents: seq<string> := ["install", "activate", "fetch"]

  /** `addEventListener('{$event}'`, the text the check looks for. */
  function ListenerText(event: string): string {
    "addEventListener('" + event + "'"
  }

  const MissingEventPrefix: string := "Missing "
  const MissingEventSuffix: string := " event listener"

  function MissingEvent(event: string): string {
    MissingEventPrefix + event + MissingEventSuffix
  }

  lemma MissingEventInjective(e: string, g: string)
    requires MissingEvent(e) == MissingEvent(g)
    ensures e == g
  {
    assert e == MissingEvent(e)[|MissingEventPrefix|..|MissingEvent(e)| - |MissingEventSuffix|];
    assert g == MissingEvent(g)[|MissingEventPrefix|..|MissingEvent(g)| - |MissingEventSuffix|];
  }

  /** One message per event of `events` whose listener text does not occur
      in the worker, in order. */
  function MissingEvents(content: string, events: seq<string>): (r: seq<string>)
    ensures |r| <= |events|
    ensures r == [] <==> forall i :: 0 <= i < |events| ==> Contains(content, ListenerText(events[i]))
    decreases |events|
  {
    if events == [] then []
    else
      var last := events[|events| - 1];
      var init := MissingEvents(content, events[..|events| - 1]);
      assert forall i :: 0 <= i < |events| - 1 ==> events[..|events| - 1][i] == events[i];
      init + (if Contains(content, ListenerText(last)) then [] else [MissingEvent(last)])
  }

  lemma {:induction false} MissingEventsExact(content: string, events: seq<string>, e: string)
    ensures MissingEvent(e) in MissingEvents(content, events) <==> e in events && !Contains(content, ListenerText(e))
    decreases |events|
  {
    if events != [] {
      var last := events[|events| - 1];
      var init := events[..|events| - 1];
      MissingEventsExact(content, init, e);
      assert events == init + [last];
      if MissingEvent(e) == MissingEvent(last) {
        MissingEventInjective(e, last);
      }
    }
  }

  /** What `validateServiceWorker()` returns for `public/sw.js`. */
  function WorkerErrors(file: Option<string>): (r: seq<string>)
    ensures file.None? ==> r == ["Service worker file not found"]
    ensures file.Some? ==> forall e :: MissingEvent(e) in r <==> e in RequiredEvents && !Contains(file.value, ListenerText(e))
  {
    match file
    case None => ["Service worker file not found"]
    case Some(content) =>
      assert forall e :: MissingEvent(e) in MissingEvents(content, RequiredEvents) <==>
                           e in RequiredEvents && !Contains(content, ListenerText(e)) by {
        forall e ensures MissingEvent(e) in MissingEvents(content, RequiredEvents) <==>
                           e in RequiredEvents && !Contains(content, ListenerText(e)) {
          MissingEventsExact(content, RequiredEvents, e);
        }
      }
      MissingEvents(content, RequiredEvents)
  }

  /** `validateServiceWorker()`. */
  method ValidateServiceWorker(file: Option<string>) returns (errors: seq<string>)
    ensures errors == WorkerErrors(file)
  {
    if file.None? {
      return ["Service worker file not found"];
    }
    var content := file.value;
    errors := [];
    for i := 0 to |RequiredEvents|
      invariant errors == MissingEvents(content, RequiredEvents[..i])
    {
      assert RequiredEvents[..i + 1][..i] == RequiredEvents[..i];
      if !Contains(content, ListenerText(RequiredEvents[i])) {
        errors := errors + [MissingEvent(RequiredEvents[i])];
      }
    }
    assert RequiredEvents[..|RequiredEvents|] == RequiredEvents;
  }

  const RequiredIconSizes: seq<nat> := [192, 512]

  function MissingIcon(n: nat): string {
    "Missing required icon: " + SizeLabel(n)
  }

  /** What `validateIcons()` returns for the files under `public/`, `None`
      when `public/icons` is not a directory. */
  function IconErrors(dir: Option<set<string>>): (r: seq<string>)
    ensures dir.None? ==> r == ["Icons directory not found"]
    ensures dir.Some? ==> (r == [] <==> GenerateCommand.IconPath(192) in dir.value && GenerateCommand.IconPath(512) in dir.value)
  {
    match dir
    case None => ["Icons directory not found"]
    case Some(files) =>
      (if GenerateCommand.IconPath(192) in files then [] else [MissingIcon(192)])
      + (if GenerateCommand.IconPath(512) in files then [] else [MissingIcon(512)])
  }

  /** `validateIcons()`. */
  method ValidateIcons(dir: Option<set<string>>) returns (errors: seq<string>)
    ensures errors == IconErrors(dir)
  {
    if dir.None? {
      return ["Icons directory not found"];
    }
    errors := [];
    for i := 0 to |RequiredIconSizes|
      invariant errors == MissingIconsBefore(dir.value, i)
    {
      var n := RequiredIconSizes[i];
      if GenerateCommand.IconPath(n) !in dir.value {
        errors := errors + [MissingIcon(n)];
      }
    }
  }

  /** The messages for the first `i` required sizes. */
  function MissingIconsBefore(files: set<string>, i: nat): seq<string>
    requires i <= |RequiredIconSizes|
  {
    if i == 0 then []
    else
      var n := RequiredIconSizes[i - 1];
      MissingIconsBefore(files, i - 1) + (if GenerateCommand.IconPath(n) in files then [] else [MissingIcon(n)])
  }

  /** The icons this command generates always pass the icon check. */
  lemma OwnIconsValid(present: set<string>, before: set<string>)
    ensures IconErrors(Some(before + set f | f in IconRunFiles(BaseIcon(present)))) == []
  {
    PngIconsWritten(BaseIcon(present), 7);
    PngIconsWritten(BaseIcon(present), 9);
  }

  /** The icons `GenerateCommand` makes from an SVG source fail the icon
      check of this command in a directory that had no PNG icons: both
      required sizes were written as `.svg`. */
  lemma SvgSourceFailsIconCheck(src: string, before: set<string>)
    requires EndsWith(src, ".svg")
    requires GenerateCommand.IconPath(192) !in before && GenerateCommand.IconPath(512) !in before
    ensures IconErrors(Some(before + set f | f in GenerateCommand.IconRunFiles(Some(src))))
            == [MissingIcon(192), MissingIcon(512)]
  {
    GenerateCommand.SvgSourceSkipsPng(src, 7);
    GenerateCommand.SvgSourceSkipsPng(src, 9);
  }

  /** `validateFiles()`: the non-empty error lists, keyed by what they are
      about, in the order manifest, service worker, icons. */
  function Report(manifest: seq<string>, worker: seq<string>, icons: seq<string>): (r: seq<(string, seq<string>)>)
    ensures r == [] <==> manifest == [] && worker == [] && icons == []
    ensures forall i :: 0 <= i < |r| ==> r[i].1 != []
    ensures ("manifest", manifest) in r <==> manifest != []
    ensures ("service_worker", worker) in r <==> worker != []
    ensures ("icons", icons) in r <==> icons != []
  {
    (if manifest != [] then [("manifest", manifest)] else [])
    + (if worker != [] then [("service_worker", worker)] else [])
    + (if icons != [] then [("icons", icons)] else [])
  }

  method ValidateFiles(manifestFile: Option<Decoded>, workerFile: Option<string>, iconDir: Option<set<string>>)
    returns (report: seq<(string, seq<string>)>)
    ensures report == Report(ManifestErrors(manifestFile), WorkerErrors(workerFile), IconErrors(iconDir))
  {
    var manifest := ValidateManifest(manifestFile);
    var worker := ValidateServiceWorker(workerFile);
    var icons := ValidateIcons(iconDir);
    report := Report(manifest, worker, icons);
  }
}
