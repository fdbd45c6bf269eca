/**
 The parts of `std::filesystem::path` the analyzer uses, on the bytes of a path.
 */
module Paths {
  import opened Text

  /** The last component; empty after a trailing separator. */
  function FileName(path: string): string {
    path[AfterLast(path, '/')..]
  }

  /** From the last dot of the last component; a leading dot starts no extension. */
  function Extension(path: string): (extension: string)
    ensures |extension| <= |path|
  {
    var name := FileName(path);
    var dot := AfterLast(name, '.');
    if dot <= 1 || name == ".." then "" else name[dot - 1..]
  }

  /** What `replace_extension()` leaves. */
  function WithoutExtension(path: string): string {
    path[..|path| - |Extension(path)|]
  }

  /** `directory / name` for a name that is no path of its own. */
  function InDirectory(directory: string, name: string): string {
    if directory == "" || directory[|directory| - 1] == '/' then directory + name else directory + "/" + name
  }

  /** The last component of a path whose directory ends in a separator, if it has any. */
  lemma FileNameAfter(head: string, name: string)
    requires (head == "" || head[|head| - 1] == '/') && Lacks(name, '/')
    ensures FileName(head + name) == name
  {
    AfterLastMeaning(name, '/');
    if head == "" {
      assert head + name == name;
    } else {
      var before := head[..|head| - 1];
      assert head + name == before + "/" + name;
      AfterLastHead(before, '/', name);
      assert (head + name)[|head|..] == name;
    }
  }

  /** A name with something before its last dot has an extension from that dot on. */
  lemma ExtensionIsFromDot(head: string, stem: string, extension: string)
    requires head == "" || head[|head| - 1] == '/'
    requires stem != "" && Lacks(stem, '/') && Lacks(extension, '/') && Lacks(extension, '.')
    requires stem + "." + extension != ".."
    ensures Extension(head + (stem + "." + extension)) == "." + extension
    ensures WithoutExtension(head + (stem + "." + extension)) == head + stem
  {
    var name := stem + "." + extension;
    FileNameAfter(head, name);
    AfterLastHead(stem, '.', extension);
    Cut(stem, "." + extension);
    Cut(head + stem, "." + extension);
    Assoc(stem, ".", extension);
    Assoc(head, stem, "." + extension);
    ExtensionAfter(head + name, name, |stem|);
  }

  lemma Cut(a: string, b: string)
    ensures (a + b)[..|a|] == a && (a + b)[|a|..] == b
  {
  }

  lemma ExtensionAfter(path: string, name: string, at: nat)
    requires FileName(path) == name && name != ".." && 0 < at < |name| && AfterLast(name, '.') == at + 1
    ensures Extension(path) == name[at..]
  {
  }

  /** Any other name has none: without a dot, with only one in front, or "..". */
  lemma NoExtension(head: string, name: string)
    requires (head == "" || head[|head| - 1] == '/') && Lacks(name, '/')
    requires Lacks(name, '.') || (name[0] == '.' && Lacks(name[1..], '.')) || name == ".."
    ensures Extension(head + name) == "" && WithoutExtension(head + name) == head + name
  {
    FileNameAfter(head, name);
    NoDotInside(name);
    NoExtensionAt(head + name, name);
  }

  lemma NoExtensionAt(path: string, name: string)
    requires FileName(path) == name && (AfterLast(name, '.') <= 1 || name == "..")
    ensures Extension(path) == "" && WithoutExtension(path) == path
  {
    assert path[..|path|] == path;
  }

  lemma NoDotInside(name: string)
    requires Lacks(name, '.') || (name[0] == '.' && Lacks(name[1..], '.')) || name == ".."
    ensures AfterLast(name, '.') <= 1 || name == ".."
  {
    AfterLastMeaning(name, '.');
    if !Lacks(name, '.') && name != ".." {
      assert name == "" + "." + name[1..];
      AfterLastHead("", '.', name[1..]);
    }
  }

  /** Removing the extension removes just that. */
  lemma ExtensionSplits(path: string)
    ensures path == WithoutExtension(path) + Extension(path)
  {
    var name := FileName(path);
    var cut := |path| - |Extension(path)|;
    if Extension(path) != "" {
      assert Extension(path) == path[AfterLast(path, '/') + AfterLast(name, '.') - 1..];
      assert Extension(path) == path[cut..];
    }
    assert path == path[..cut] + path[cut..];
  }

  /** The joined name is the last component. */
  lemma FileNameInDirectory(directory: string, name: string)
    requires Lacks(name, '/')
    ensures FileName(InDirectory(directory, name)) == name
    ensures directory <= InDirectory(directory, name) && |InDirectory(directory, name)| <= |directory| + 1 + |name|
  {
    var path := InDirectory(directory, name);
    AfterLastMeaning(name, '/');
    if directory == "" {
      assert path == name;
    } else {
      var head := if directory[|directory| - 1] == '/' then directory[..|directory| - 1] else directory;
      assert path == head + "/" + name;
      AfterLastHead(head, '/', name);
      assert path[|head| + 1..] == name;
    }
  }
}
