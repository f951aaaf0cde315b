/** The upload checks of app/utils/validators.py with the limits of app/core/config.py. */
module Validators {
  import opened Wrappers
  import opened Text
  import opened PathNames

  /** `ALLOWED_EXTENSIONS`. */
  const AllowedExtensions: set<string> := {".xlsx", ".csv"}

  /** `MAX_FILE_SIZE`: 50 MB. */
  const MaxFileSize: int := 50 * 1024 * 1024

  /** `InvalidFileFormatError`, with what its message reports. */
  datatype ValidationError = UnsupportedExtension(ext: string) | FileTooLarge(size: int)

  /** `validate_file_extension`: `True`, or the error naming the lower-cased suffix. */
  function ValidateFileExtension(filename: string): (r: Result<bool, ValidationError>)
    ensures r.Ok? ==> r.value
    ensures r.Err? ==> r.error == UnsupportedExtension(Lower(Suffix(filename)))
  {
    var ext := Lower(Suffix(filename));
    if ext !in AllowedExtensions then Err(UnsupportedExtension(ext)) else Ok(true)
  }

  /** `validate_file_size`: `True` up to and including the limit, the error above it. */
  function ValidateFileSize(size: int): (r: Result<bool, ValidationError>)
    ensures r.Ok? <==> size <= 52428800
    ensures r.Ok? ==> r.value
    ensures r.Err? ==> r.error == FileTooLarge(size)
  {
    if size > MaxFileSize then Err(FileTooLarge(size)) else Ok(true)
  }

  /** The final name component ends in ".csv" or ".xlsx", in any letter case, after at least one
      other character. */
  predicate HasAllowedEnding(name: string) {
    || (|name| > 4 && Lower(name[|name| - 4..]) == ".csv")
    || (|name| > 5 && Lower(name[|name| - 5..]) == ".xlsx")
  }

  /** A file name is accepted exactly when its final component has an allowed ending: only the
      last suffix counts, letter case does not, and a name that is nothing but the extension is
      refused. */
  lemma ExtensionAccepted(filename: string)
    ensures ValidateFileExtension(filename).Ok? <==> HasAllowedEnding(Name(filename))
  {
    var name := Name(filename);
    if HasAllowedEnding(name) {
      EndingGivesSuffix(name);
    }
    if Lower(NameSuffix(name)) in AllowedExtensions {
      SuffixGivesEnding(name);
    }
  }

  lemma EndingGivesSuffix(name: string)
    requires HasAllowedEnding(name)
    ensures Lower(NameSuffix(name)) in AllowedExtensions
  {
    var n := if |name| > 4 && Lower(name[|name| - 4..]) == ".csv" then 4 else 5;
    var ending := name[|name| - n..];
    LowerKeepsDots(ending);
    assert ending[0] == '.' by {
      assert Lower(ending)[0] == '.';
    }
    SuffixOfEnding(name, ending);
  }

  lemma SuffixGivesEnding(name: string)
    requires Lower(NameSuffix(name)) in AllowedExtensions
    ensures HasAllowedEnding(name)
  {
    var suffix := NameSuffix(name);
    assert |suffix| == |Lower(suffix)|;
    assert suffix == name[|name| - |suffix|..];
  }

  /** Lower-casing neither makes nor removes dots. */
  lemma LowerKeepsDots(s: string)
    ensures forall k :: 0 <= k < |s| ==> (s[k] == '.' <==> Lower(s)[k] == '.')
  {
  }

  /** A plain name ending in a dot-led, dot-free extension is judged by that extension alone,
      lower-cased: letter case does not matter ("DATA.CSV" is accepted), an earlier dot is
      part of the stem ("a.exe.csv" is accepted, "a.csv.exe" refused), and a refused name's
      error reports the lower-cased extension. */
  lemma SuffixDecides(stem: string, ext: string)
    requires stem != "" && '/' !in stem
    requires |ext| >= 2 && ext[0] == '.' && forall k :: 1 <= k < |ext| ==> ext[k] != '.' && ext[k] != '/'
    ensures ValidateFileExtension(stem + ext) ==
      if Lower(ext) in AllowedExtensions then Ok(true) else Err(UnsupportedExtension(Lower(ext)))
  {
    PlainNameParts(stem, ext);
  }

  /** A plain name with no dot after its first character has no suffix and is refused with an
      empty extension: ".csv" and "csv" are both refused. */
  lemma RejectsWithoutSuffix(name: string)
    requires name != "" && name != "." && '/' !in name
    requires forall k :: 0 < k < |name| ==> name[k] != '.'
    ensures ValidateFileExtension(name) == Err(UnsupportedExtension(""))
  {
    NameOfPlainName(name);
    if name[0] == '.' {
      LastDotIs(name, 0);
    } else {
      NoDotNoSuffix(name);
    }
  }
}
