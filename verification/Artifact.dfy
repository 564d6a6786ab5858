/** The name a built image gets, and the architecture an upload reads back from it. */
module Artifact {
  import opened Text
  import opened Wrappers

  /** The parts of s around its first separator; None for the second when there is no separator. */
  function SplitAtFirst(s: string, sep: char): (string, Option<string>) {
    if s == "" then ("", None)
    else if s[0] == sep then ("", Some(s[1..]))
    else var (a, b) := SplitAtFirst(s[1..], sep); ([s[0]] + a, b)
  }

  predicate HasSuffix(s: string, suffix: string) {
    |s| >= |suffix| && s[|s| - |suffix|..] == suffix
  }

  function TrimSuffix(s: string, suffix: string): string {
    if HasSuffix(s, suffix) then s[..|s| - |suffix|] else s
  }

  /** The image type as far as names go. */
  datatype Image = Image(filename: string, distro: string, typeName: string, arch: string)

  function BasenameFor(img: Image, userBasename: string): string {
    if userBasename != "" then
      match SplitAtFirst(img.filename, '.').1
      case Some(ext) => if ext != "" then TrimSuffix(userBasename, "." + ext) else userBasename
      case None => userBasename
    else img.distro + "-" + img.typeName + "-" + img.arch
  }

  /** The final name of the artifact; a file name without an extension is an index out of range. */
  function FinalName(img: Image, userBasename: string): Option<string> {
    match SplitAtFirst(img.filename, '.').1
    case Some(ext) => Some(BasenameFor(img, userBasename) + "." + ext)
    case None => None
  }

  /** So the user's name gets what follows the first dot of the image's file name, unless it ends in it. */
  lemma UserNameSpelled(img: Image, userBasename: string, stem: string, ext: string)
    requires userBasename != "" && img.filename == stem + "." + ext && Without(stem, '.') && ext != ""
    ensures FinalName(img, userBasename) ==
      Some(if HasSuffix(userBasename, "." + ext) then userBasename else userBasename + "." + ext)
  {
    ExtensionFollowsFirstDot(stem, ext);
    UserNameGetsExtensionOnce(img, userBasename);
  }

  /** A name given by the user is kept when it ends in the image's extension already and gets it otherwise; and there
      is a final name exactly when the image's file name has a dot. */
  lemma UserNameGetsExtensionOnce(img: Image, userBasename: string)
    requires userBasename != ""
    ensures var ext := SplitAtFirst(img.filename, '.').1;
      && (FinalName(img, userBasename).Some? <==> '.' in img.filename)
      && (ext.Some? && ext.value != "" ==>
          FinalName(img, userBasename) ==
          Some(if HasSuffix(userBasename, "." + ext.value) then userBasename else userBasename + "." + ext.value))
  {
    ExtensionIffDot(img.filename);
    var ext := SplitAtFirst(img.filename, '.').1;
    if ext.Some? && HasSuffix(userBasename, "." + ext.value) {
      var n := |userBasename| - |"." + ext.value|;
      assert userBasename == userBasename[..n] + userBasename[n..];
      assert userBasename[..n] + "." + ext.value == userBasename[..n] + ("." + ext.value);
    }
  }

  /** The extension is what follows the first dot. */
  lemma {:induction false} ExtensionFollowsFirstDot(stem: string, ext: string)
    requires Without(stem, '.')
    ensures SplitAtFirst(stem + "." + ext, '.') == (stem, Some(ext))
    decreases |stem|
  {
    var s := stem + "." + ext;
    if stem == "" {
      assert s[1..] == ext;
    } else {
      assert s[0] == stem[0] && s[1..] == stem[1..] + "." + ext;
      ExtensionFollowsFirstDot(stem[1..], ext);
      assert stem == [stem[0]] + stem[1..];
    }
  }

  /** Without a name given by the user it is made of distribution, type and architecture, with the image's extension. */
  lemma DefaultNameSpelled(img: Image, stem: string, ext: string)
    requires img.filename == stem + "." + ext && Without(stem, '.')
    ensures FinalName(img, "") == Some(img.distro + "-" + img.typeName + "-" + img.arch + "." + ext)
  {
    ExtensionFollowsFirstDot(stem, ext);
  }

  lemma {:induction false} ExtensionIffDot(s: string)
    ensures SplitAtFirst(s, '.').1.Some? <==> '.' in s
    decreases |s|
  {
    if s == "" {
    } else {
      ExtensionIffDot(s[1..]);
    }
  }

  // ---- Reading the architecture back

  function StripSlashes(path: string): string {
    if path != "" && path[|path| - 1] == '/' then StripSlashes(path[..|path| - 1]) else path
  }

  /** The last element of a path, as Go's filepath.Base gives it. */
  function Base(path: string): string {
    if path == "" then "."
    else if StripSlashes(path) == "" then "/"
    else var parts := Split(StripSlashes(path), '/'); parts[|parts| - 1]
  }

  function LastFragment(name: string): string {
    var frags := Split(name, '-');
    frags[|frags| - 1]
  }

  /** The detected architecture, "" when there is none; fromString reads an architecture's name. */
  function DetectArch(imagePath: string, fromString: string -> Option<string>): string {
    var nameNoEx := Split(Base(imagePath), '.')[0];
    match fromString(LastFragment(nameNoEx))
    case Some(a) => a
    case None => ""
  }

  predicate Without(s: string, c: char) {
    c !in s
  }

  lemma BaseOfPath(dir: string, name: string)
    requires Without(name, '/') && name != ""
    ensures Base(name) == name && Base(dir + ['/'] + name) == name
  {
    SplitUnseparated(name, '/');
    SplitLast(dir, name, '/');
    var path := dir + ['/'] + name;
    assert path[|path| - 1] == name[|name| - 1] && name[|name| - 1] in name;
    assert StripSlashes(path) == path && StripSlashes(name) == name;
  }

  lemma BeforeFirstDot(stem: string, rest: string)
    requires Without(stem, '.')
    ensures Split(stem + ['.'] + rest, '.')[0] == stem
  {
    SplitFirst(stem, rest, '.');
  }

  lemma LastOf(front: string, last: string)
    requires Without(last, '-')
    ensures LastFragment(front + ['-'] + last) == last
  {
    SplitLast(front, last, '-');
  }

  /** The default name up to the architecture. */
  function Front(img: Image): string {
    img.distro + "-" + img.typeName
  }

  predicate NoSlashes(img: Image, ext: string) {
    Without(img.distro, '/') && Without(img.typeName, '/') && Without(img.arch, '/') && Without(ext, '/')
  }

  /** What is read back from a default name, wherever the file lies: the end of what precedes the first dot. */
  lemma ReadsUpToFirstDot(img: Image, ext: string, dir: string, fromString: string -> Option<string>)
    requires SplitAtFirst(img.filename, '.').1 == Some(ext)
    requires NoSlashes(img, ext) && ('.' in Front(img) || Without(img.arch, '.'))
    ensures FinalName(img, "").Some?
    ensures var name := FinalName(img, "").value;
      var read := if '.' in Front(img) then Split(Front(img), '.')[0] else Front(img) + "-" + img.arch;
      DetectArch(name, fromString) == DetectArch(dir + ['/'] + name, fromString) == fromString(LastFragment(read)).GetOr("")
  {
    var name := FinalName(img, "").value;
    BaseOfPath(dir, name);
    assert name == Front(img) + "-" + img.arch + "." + ext;
    if '.' in Front(img) {
      FirstPartEnds(Front(img), "-" + (img.arch + ("." + ext)), '.');
      Associative(Front(img) + "-", img.arch, "." + ext);
      Associative(Front(img) + "-" + img.arch, ".", ext);
      Associative(Front(img), "-", img.arch + ("." + ext));
    } else {
      BeforeFirstDot(Front(img) + "-" + img.arch, ext);
    }
  }

  /** The architecture is read back from a default name if and only if neither distribution nor type have a dot, or by
      accident: what precedes the first dot ends in a name of that very architecture. */
  lemma DefaultNameIsDetectedIff(img: Image, ext: string, dir: string, fromString: string -> Option<string>)
    requires SplitAtFirst(img.filename, '.').1 == Some(ext)
    requires NoSlashes(img, ext) && Without(img.arch, '.') && Without(img.arch, '-') && img.arch != ""
    requires fromString(img.arch) == Some(img.arch)
    ensures FinalName(img, "").Some?
    ensures var name := FinalName(img, "").value;
      && DetectArch(name, fromString) == DetectArch(dir + ['/'] + name, fromString)
      && (DetectArch(name, fromString) == img.arch <==>
          (Without(img.distro, '.') && Without(img.typeName, '.'))
          || fromString(LastFragment(Split(Front(img), '.')[0])) == Some(img.arch))
  {
    ReadsUpToFirstDot(img, ext, dir, fromString);
    LastOf(Front(img), img.arch);
    assert '.' in Front(img) <==> '.' in img.distro || '.' in img.typeName;
    if '.' !in Front(img) {
      assert Front(img) + ['-'] + img.arch == Front(img) + "-" + img.arch;
    }
  }

  /** So it is for every distribution and type without a dot. */
  lemma DefaultNameIsDetected(img: Image, ext: string, dir: string, fromString: string -> Option<string>)
    requires SplitAtFirst(img.filename, '.').1 == Some(ext)
    requires Without(img.distro, '.') && Without(img.typeName, '.') && Without(img.arch, '.') && Without(img.arch, '-')
    requires NoSlashes(img, ext) && fromString(img.arch) == Some(img.arch)
    ensures FinalName(img, "").Some?
    ensures DetectArch(FinalName(img, "").value, fromString) == img.arch
    ensures DetectArch(dir + ['/'] + FinalName(img, "").value, fromString) == img.arch
  {
    ReadsUpToFirstDot(img, ext, dir, fromString);
    LastOf(Front(img), img.arch);
  }

  /** With a dot in the distribution's name the architecture plays no part: what is read is the text before that dot. */
  lemma DottedDistroHidesArch(img: Image, ext: string, before: string, after: string, fromString: string -> Option<string>)
    requires SplitAtFirst(img.filename, '.').1 == Some(ext)
    requires img.distro == before + "." + after && Without(before, '.') && NoSlashes(img, ext)
    ensures DetectArch(FinalName(img, "").value, fromString) == fromString(LastFragment(before)).GetOr("")
  {
    var rest := after + ("-" + img.typeName);
    Associative(before + ".", after, "-" + img.typeName);
    Associative(img.distro, "-", img.typeName);
    assert Front(img) == before + ['.'] + rest && Front(img)[|before|] == '.';
    ReadsUpToFirstDot(img, ext, "", fromString);
    BeforeFirstDot(before, rest);
  }

  /** With a dot in the type's name only it is the text before that one, without the distribution in front of it if
      there is a dash. */
  lemma DottedTypeHidesArch(img: Image, ext: string, before: string, after: string, fromString: string -> Option<string>)
    requires SplitAtFirst(img.filename, '.').1 == Some(ext)
    requires img.typeName == before + "." + after && Without(before, '.') && Without(before, '-')
    requires Without(img.distro, '.') && NoSlashes(img, ext)
    ensures DetectArch(FinalName(img, "").value, fromString) == fromString(before).GetOr("")
  {
    var stem := img.distro + ['-'] + before;
    Associative(img.distro + "-", before, "." + after);
    Associative(stem, ".", after);
    Associative(before, ".", after);
    assert Front(img) == stem + ['.'] + after && Front(img)[|stem|] == '.';
    ReadsUpToFirstDot(img, ext, "", fromString);
    BeforeFirstDot(stem, after);
    LastOf(img.distro, before);
  }

  /** As for a minor release: nothing is detected from its default name unless "9" were an architecture. */
  lemma MinorReleaseIsNotDetected(img: Image, ext: string, fromString: string -> Option<string>)
    requires SplitAtFirst(img.filename, '.').1 == Some(ext) && Without(ext, '/')
    requires img.distro == "rhel-9.6" && img.typeName == "qcow2" && img.arch == "x86_64" && fromString("9") == None
    ensures FinalName(img, "").Some? && DetectArch(FinalName(img, "").value, fromString) == ""
  {
    assert "rhel-9.6" == "rhel-9" + "." + "6" && "rhel-9" == "rhel" + ['-'] + "9";
    DottedDistroHidesArch(img, ext, "rhel-9", "6", fromString);
    LastOf("rhel", "9");
  }
}
