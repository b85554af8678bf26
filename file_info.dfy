/** File identity in the I/O layer: an EtoFileInfo is equal to another when it is
    the same reference, or when both are non-null and their full names agree under
    ordinal case-insensitive comparison. Name and Extension are derived from the
    full name, and the shorter Open overloads forward to the three-argument one. */
module EtoIO {

  /** Path.DirectorySeparatorChar, AltDirectorySeparatorChar and VolumeSeparatorChar on Windows. */
  predicate IsSeparator(c: char) {
    c == '\\' || c == '/' || c == ':'
  }

  /** The per-character case fold of ordinal case-insensitive comparison (ASCII letters to upper case). */
  function Fold(c: char): char {
    if 'a' <= c <= 'z' then (c as int - 32) as char else c
  }

  function Folded(s: string): string {
    seq(|s|, i requires 0 <= i < |s| => Fold(s[i]))
  }

  /** String.Equals(a, b, StringComparison.OrdinalIgnoreCase), character by character. */
  function EqualsOrdinalIgnoreCase(a: string, b: string): (r: bool)
    ensures r <==> Folded(a) == Folded(b)
    decreases |a|
  {
    if |a| != |b| then false
    else if a == [] then true
    else
      assert Folded(a)[0] == Fold(a[0]) && Folded(a)[1..] == Folded(a[1..]);
      assert Folded(b)[0] == Fold(b[0]) && Folded(b)[1..] == Folded(b[1..]);
      Fold(a[0]) == Fold(b[0]) && EqualsOrdinalIgnoreCase(a[1..], b[1..])
  }

  /** A stand-in for String.GetHashCode: some function of the exact characters. */
  function StringHash(s: string): int {
    if s == [] then 0 else 31 * StringHash(s[..|s| - 1]) + s[|s| - 1] as int
  }

  /** Where the last path segment of `path[..i]` starts: just after its last separator. */
  function SegmentStart(path: string, i: nat): (k: nat)
    requires i <= |path|
    ensures k <= i
    ensures forall j :: k <= j < i ==> !IsSeparator(path[j])
    ensures k > 0 ==> IsSeparator(path[k - 1])
    decreases i
  {
    if i == 0 then 0
    else if IsSeparator(path[i - 1]) then i
    else SegmentStart(path, i - 1)
  }

  /** Path.GetFileName: the text after the last separator. */
  function GetFileName(path: string): (name: string)
    ensures |name| <= |path| && name == path[|path| - |name|..]
    ensures forall j :: 0 <= j < |name| ==> !IsSeparator(name[j])
    ensures |name| < |path| ==> IsSeparator(path[|path| - |name| - 1])
  {
    path[SegmentStart(path, |path|)..]
  }

  lemma {:induction false} SegmentStartSkips(path: string, i: nat)
    requires i <= |path|
    requires forall j :: i <= j < |path| ==> !IsSeparator(path[j])
    ensures SegmentStart(path, |path|) == SegmentStart(path, i)
    decreases |path| - i
  {
    if i < |path| {
      SegmentStartSkips(path, i + 1);
    }
  }

  /** GetExtension's backwards scan over `path[..i]`; everything from `i` on has
      already been passed over. */
  function ExtensionScan(path: string, i: nat): (ext: string)
    requires i <= |path|
    requires forall j :: i <= j < |path| ==> path[j] != '.' && !IsSeparator(path[j])
    ensures ext == [] || (2 <= |ext| <= |path| && ext[0] == '.' && ext == path[|path| - |ext|..])
    ensures forall j :: 0 < j < |ext| ==> ext[j] != '.' && !IsSeparator(ext[j])
    ensures ext == [] ==>
      (0 < i == |path| && path[i - 1] == '.')
      || forall j :: SegmentStart(path, |path|) <= j < |path| ==> path[j] != '.'
    decreases i
  {
    if i == 0 then []
    else if path[i - 1] == '.' then (if i - 1 != |path| - 1 then path[i - 1..] else [])
    else if IsSeparator(path[i - 1]) then
      SegmentStartSkips(path, i);
      []
    else ExtensionScan(path, i - 1)
  }

  /** Path.GetExtension: from the last '.' of the last segment, or empty when
      there is none or it ends the path. */
  function GetExtension(path: string): (ext: string)
    ensures ext == [] || (2 <= |ext| <= |path| && ext[0] == '.' && ext == path[|path| - |ext|..])
    ensures forall j :: 0 < j < |ext| ==> ext[j] != '.' && !IsSeparator(ext[j])
    ensures ext == [] ==> (|path| > 0 && path[|path| - 1] == '.') || '.' !in GetFileName(path)
  {
    ExtensionScan(path, |path|)
  }

  datatype FileMode = CreateNew | Create | Open | OpenOrCreate | Truncate | Append

  datatype FileAccess = Read | Write | ReadWrite

  datatype FileShare = None | Read | Write | ReadWrite | Delete | Inheritable

  /** The arguments with which the abstract `Open(mode, access, share)` is called. */
  datatype OpenRequest = OpenRequest(mode: FileMode, access: FileAccess, share: FileShare)

  class EtoFileInfo {
    const FullName: string

    constructor (fullName: string)
      ensures FullName == fullName
    {
      FullName := fullName;
    }

    /** The last segment of the full name. */
    function Name(): (name: string)
      ensures |name| <= |FullName| && name == FullName[|FullName| - |name|..]
      ensures forall j :: 0 <= j < |name| ==> !IsSeparator(name[j])
      ensures |name| < |FullName| ==> IsSeparator(FullName[|FullName| - |name| - 1])
    {
      GetFileName(FullName)
    }

    /** The name's extension, dot included. */
    function Extension(): (ext: string)
      ensures ext == [] || (2 <= |ext| <= |Name()| && ext[0] == '.' && ext == Name()[|Name()| - |ext|..])
      ensures forall j :: 0 < j < |ext| ==> ext[j] != '.'
      ensures ext == [] ==> '.' !in Name() || Name()[|Name()| - 1] == '.'
    {
      var name := Name();
      SegmentStartSkips(name, 0);
      assert GetFileName(name) == name;
      GetExtension(name)
    }

    /** Of the full name, exactly as written (case-sensitive). */
    function GetHashCode(): int {
      StringHash(FullName)
    }

    /** A hash that agrees with `==`: of the case-folded full name. */
    function GetHashCodeIgnoringCase(): int {
      StringHash(Folded(FullName))
    }

    /** `Equals(object obj)`: `this == obj as EtoFileInfo`. */
    function Equals(obj: object?): (r: bool)
      ensures obj == null ==> !r
      ensures !(obj is EtoFileInfo) ==> !r
      ensures obj is EtoFileInfo ==> (r <==> FileEquals(this, obj as EtoFileInfo))
    {
      FileEquals(this, AsFileInfo(obj))
    }

    /** `Open(fileMode)`. */
    function Open(mode: FileMode): OpenRequest {
      OpenRequest(mode, FileAccess.ReadWrite, FileShare.Read)
    }

    /** `Open(fileMode, fileAccess)`. */
    function OpenWithAccess(mode: FileMode, access: FileAccess): OpenRequest {
      OpenRequest(mode, access, FileShare.Read)
    }

    /** `OpenRead()`, as written. */
    function OpenRead(): OpenRequest {
      Open(FileMode.Open)
    }

    /** What OpenRead evidently means: open an existing file for reading only. */
    function OpenReadOnly(): OpenRequest {
      OpenWithAccess(FileMode.Open, FileAccess.Read)
    }
  }

  /** `obj as EtoFileInfo`. */
  function AsFileInfo(obj: object?): EtoFileInfo? {
    if obj is EtoFileInfo then obj as EtoFileInfo else null
  }

  /** `operator ==`. */
  function FileEquals(file1: EtoFileInfo?, file2: EtoFileInfo?): (r: bool)
    ensures r <==>
      || (file1 == null && file2 == null)
      || (file1 != null && file2 != null && Folded(file1.FullName) == Folded(file2.FullName))
  {
    if file1 == file2 then true
    else if file1 == null || file2 == null then false
    else EqualsOrdinalIgnoreCase(file1.FullName, file2.FullName)
  }

  /** `operator !=`. */
  function FileNotEquals(file1: EtoFileInfo?, file2: EtoFileInfo?): (r: bool)
    ensures r <==>
      || ((file1 == null) != (file2 == null))
      || (file1 != null && file2 != null && Folded(file1.FullName) != Folded(file2.FullName))
  {
    !FileEquals(file1, file2)
  }

  lemma SameReferenceIsEqual(file: EtoFileInfo?)
    ensures FileEquals(file, file) && !FileNotEquals(file, file)
  {
  }

  lemma OneNullIsUnequal(file: EtoFileInfo)
    ensures !FileEquals(file, null) && !FileEquals(null, file)
    ensures FileNotEquals(file, null) && FileNotEquals(null, file)
  {
  }

  lemma EqualityIsSymmetric(file1: EtoFileInfo?, file2: EtoFileInfo?)
    ensures FileEquals(file1, file2) == FileEquals(file2, file1)
  {
  }

  lemma EqualityIsTransitive(file1: EtoFileInfo?, file2: EtoFileInfo?, file3: EtoFileInfo?)
    requires FileEquals(file1, file2) && FileEquals(file2, file3)
    ensures FileEquals(file1, file3)
  {
  }

  lemma NotEqualsIsNegation(file1: EtoFileInfo?, file2: EtoFileInfo?)
    ensures FileNotEquals(file1, file2) == !FileEquals(file1, file2)
  {
  }

  /** Equals agrees with `==` for every file argument, the null one included. */
  lemma EqualsAgreesWithOperator(file: EtoFileInfo, other: EtoFileInfo?)
    ensures file.Equals(other) == FileEquals(file, other)
  {
  }

  lemma SameFullNameSameNameAndExtension(file1: EtoFileInfo, file2: EtoFileInfo)
    requires file1.FullName == file2.FullName
    ensures file1.Name() == file2.Name() && file1.Extension() == file2.Extension()
    ensures file1.GetHashCode() == file2.GetHashCode()
  {
  }

  /** As written, two files can be `==` and still hash differently. */
  lemma EqualFilesCanHashApart(file1: EtoFileInfo, file2: EtoFileInfo)
    requires file1.FullName == "a" && file2.FullName == "A"
    ensures FileEquals(file1, file2)
    ensures file1.GetHashCode() != file2.GetHashCode()
  {
    assert Folded("a") == "A" == Folded("A");
    assert StringHash("a") == 97 && StringHash("A") == 65;
  }

  /** The case-folded hash is consistent with `==`. */
  lemma EqualFilesHashAlike(file1: EtoFileInfo, file2: EtoFileInfo)
    requires FileEquals(file1, file2)
    ensures file1.GetHashCodeIgnoringCase() == file2.GetHashCodeIgnoringCase()
  {
  }

  /** Every shorter overload ends in the three-argument Open with FileShare.Read. */
  lemma OpenOverloadsForward(file: EtoFileInfo, mode: FileMode, access: FileAccess)
    ensures file.Open(mode) == OpenRequest(mode, FileAccess.ReadWrite, FileShare.Read)
    ensures file.OpenWithAccess(mode, access) == OpenRequest(mode, access, FileShare.Read)
    ensures file.OpenRead() == file.Open(FileMode.Open)
  {
  }

  /** As written, OpenRead asks for write access too. */
  lemma OpenReadRequestsWriteAccess(file: EtoFileInfo)
    ensures file.OpenRead().access == FileAccess.ReadWrite
  {
  }

  lemma OpenReadOnlyRequestsReadAccess(file: EtoFileInfo)
    ensures file.OpenReadOnly() == OpenRequest(FileMode.Open, FileAccess.Read, FileShare.Read)
  {
  }
}
