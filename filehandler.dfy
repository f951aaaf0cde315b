/** The file names of app/services/file_handler.py: the name an upload is stored under and the
    name of the translated workbook. */
module FileHandling {
  import opened Wrappers
  import opened Text
  import opened PathNames
  import opened Validators

  const OutputEnding: string := "_translated.xlsx"

  /** The name used when the upload has none (app/api/routes.py). */
  const FallbackFilename: string := FallbackStem + ".xlsx"
  const FallbackStem: string := "translated_file"

  /** `generate_output_filename`: the stem of the final component with "_translated.xlsx". */
  function GenerateOutputFilename(original: string): (r: string)
    ensures EndsWith(r, OutputEnding)
    ensures '/' !in r[..|r| - |OutputEnding|]
  {
    var r := Stem(original) + OutputEnding;
    assert r[|r| - |OutputEnding|..] == OutputEnding;
    assert r[..|r| - |OutputEnding|] == Stem(original);
    r
  }

  /** Only the final suffix of the final component is replaced: cutting "_translated.xlsx" off
      the output name and putting the upload's suffix back gives the upload's final component. */
  lemma OutputReplacesSuffix(original: string)
    ensures var out := GenerateOutputFilename(original);
      out[..|out| - |OutputEnding|] + Suffix(original) == Name(original)
  {
    var out := GenerateOutputFilename(original);
    assert out[..|out| - |OutputEnding|] == Stem(original);
    StemSuffix(Name(original));
  }

  /** A plain name made of a stem and one dot-led, dot-free extension loses exactly the
      extension. */
  lemma OutputOfPlainName(stem: string, ext: string)
    requires stem != "" && '/' !in stem
    requires |ext| >= 2 && ext[0] == '.' && forall k :: 1 <= k < |ext| ==> ext[k] != '.' && ext[k] != '/'
    ensures GenerateOutputFilename(stem + ext) == stem + OutputEnding
  {
    PlainNameParts(stem, ext);
  }

  /** An upload without a name gives "translated_file_translated.xlsx". */
  lemma FallbackOutput()
    ensures GenerateOutputFilename(FallbackFilename) == FallbackStem + OutputEnding
  {
    OutputOfPlainName(FallbackStem, ".xlsx");
  }

  /** Splitting at a first separator. */
  lemma {:induction false} SplitAtFirst(a: string, sep: char, b: string)
    requires sep !in a
    ensures Split(a + [sep] + b, sep) == [a] + Split(b, sep)
    decreases |a|
  {
    var s := a + [sep] + b;
    if |a| > 0 {
      SplitAtFirst(a[1..], sep, b);
      assert s[0] == a[0] && s[1..] == a[1..] + [sep] + b;
      assert [a[0]] + a[1..] == a;
    } else {
      assert s[0] == sep && s[1..] == b;
    }
  }

  /** A directory in front of a plain name does not change the final component. */
  lemma NameAfterDirectory(dir: string, name: string)
    requires dir != "" && dir != "." && '/' !in dir
    requires name != "" && name != "." && '/' !in name
    ensures Name(dir + "/" + name) == name
  {
    SplitAtFirst(dir, '/', name);
    SplitWithoutSeparator(name, '/');
    var pieces := [dir, name];
    assert Split(dir + "/" + name, '/') == pieces;
    assert pieces[1..] == [name];
    assert Proper(pieces[1..]) == [name];
    assert Components(dir + "/" + name) == pieces;
  }

  /** Directory components of the upload name do not reach the output name. */
  lemma OutputIgnoresDirectory(dir: string, name: string)
    requires dir != "" && dir != "." && '/' !in dir
    requires name != "" && name != "." && '/' !in name
    ensures GenerateOutputFilename(dir + "/" + name) == GenerateOutputFilename(name)
  {
    NameAfterDirectory(dir, name);
    NameOfPlainName(name);
  }

  /** The name the translated workbook gets from the upload's optional name: `file.filename or
      "translated_file.xlsx"`. */
  function OutputFilenameFor(filename: Option<string>): (r: string)
    ensures filename.None? || filename == Some("") ==> r == FallbackStem + OutputEnding
    ensures filename.Some? && filename.value != "" ==> r == GenerateOutputFilename(filename.value)
  {
    FallbackOutput();
    var original := if filename.Some? && filename.value != "" then filename.value else FallbackFilename;
    GenerateOutputFilename(original)
  }

  /** The unique name of a saved upload: `f"{uuid.uuid4()}{file_ext}"`, the identifier being a
      parameter. */
  function UniqueFilename(uuid: string, filename: string): string {
    uuid + Suffix(filename)
  }

  /** A stored upload keeps the extension it came with, as long as the identifier has neither
      dots nor slashes (a uuid has neither). */
  lemma UniqueKeepsExtension(uuid: string, filename: string)
    requires uuid != "" && '.' !in uuid && '/' !in uuid
    ensures Name(UniqueFilename(uuid, filename)) == UniqueFilename(uuid, filename)
    ensures Suffix(UniqueFilename(uuid, filename)) == Suffix(filename)
  {
    var suffix := Suffix(filename);
    var u := uuid + suffix;
    assert '/' !in u by {
      forall k | 0 <= k < |u| ensures u[k] != '/' {
        if k >= |uuid| {
          assert u[k] == suffix[k - |uuid|];
        }
      }
    }
    assert u != "." by {
      assert u[0] == uuid[0];
    }
    NameOfPlainName(u);
    if suffix == "" {
      assert u == uuid;
      NoDotNoSuffix(u);
    } else {
      assert u[|u| - |suffix|..] == suffix;
      SuffixOfEnding(u, suffix);
    }
  }

  /** `save_upload_file`: the extension is checked, the upload written under its unique name, and
      then the size of what was written checked; the size is a parameter here. */
  function SaveUploadFile(filename: string, uuid: string, size: int): (r: Result<string, ValidationError>)
    ensures r.Ok? <==> ValidateFileExtension(filename).Ok? && size <= MaxFileSize
    ensures r.Ok? ==> r.value == UniqueFilename(uuid, filename)
    ensures ValidateFileExtension(filename).Err? ==> r == Err(ValidateFileExtension(filename).error)
    ensures ValidateFileExtension(filename).Ok? && size > MaxFileSize ==> r == Err(FileTooLarge(size))
  {
    match ValidateFileExtension(filename)
    case Err(e) => Err(e)
    case Ok(_) =>
      var stored := UniqueFilename(uuid, filename);
      match ValidateFileSize(size)
      case Err(e) => Err(e)
      case Ok(_) => Ok(stored)
  }
}
