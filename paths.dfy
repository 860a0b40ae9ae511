/** The POSIX `os.path` operations the import pipeline relies on:
    `splitext` (to pick a reader and to strip the input's extension),
    `basename`, `dirname` and `join` (to name the converted file). */
module Paths {

  /** `s.rfind(c)`: the index of the last `c` in `s`, or -1. */
  function LastIndexOf(s: string, c: char): (r: int)
    ensures -1 <= r < |s|
    ensures r >= 0 ==> s[r] == c
    ensures forall k :: r < k < |s| ==> s[k] != c
  {
    if s == [] then -1
    else if s[|s| - 1] == c then |s| - 1
    else LastIndexOf(s[..|s| - 1], c)
  }

  /** The last occurrence is determined by the two properties above. */
  lemma LastIndexOfUnique(s: string, c: char, r: int)
    requires -1 <= r < |s|
    requires r >= 0 ==> s[r] == c
    requires forall k :: r < k < |s| ==> s[k] != c
    ensures LastIndexOf(s, c) == r
  {
  }

  /** `os.path.basename`: everything after the last separator. */
  function Basename(p: string): (b: string)
    ensures NoSeparator(b)
  {
    p[LastIndexOf(p, '/') + 1..]
  }

  predicate AllSlashes(s: string)
  {
    forall k :: 0 <= k < |s| ==> s[k] == '/'
  }

  /** `s.rstrip('/')` */
  function StripTrailingSlashes(s: string): (r: string)
    ensures |r| <= |s| && forall k :: 0 <= k < |r| ==> r[k] == s[k]
    ensures forall k :: |r| <= k < |s| ==> s[k] == '/'
    ensures r == [] || r[|r| - 1] != '/'
  {
    if s != [] && s[|s| - 1] == '/' then StripTrailingSlashes(s[..|s| - 1]) else s
  }

  /** `os.path.dirname`: everything up to the last separator, with trailing
      separators removed unless the head consists of separators only. */
  function Dirname(p: string): string
  {
    var head := p[..LastIndexOf(p, '/') + 1];
    if head != [] && !AllSlashes(head) then StripTrailingSlashes(head) else head
  }

  lemma DirnameShape(p: string)
    ensures var d := Dirname(p); d == [] || AllSlashes(d) || d[|d| - 1] != '/'
  {
  }

  /** `os.path.join(a, b)` */
  function Join(a: string, b: string): string
  {
    if b != [] && b[0] == '/' then b
    else if a == [] || a[|a| - 1] == '/' then a + b
    else a + "/" + b
  }

  /** Some character of `s` is not a dot. */
  predicate HasNonDot(s: string)
  {
    s != [] && (s[0] != '.' || HasNonDot(s[1..]))
  }

  lemma {:induction false} HasNonDotAt(s: string, k: nat)
    requires k < |s| && s[k] != '.'
    ensures HasNonDot(s)
    decreases k
  {
    if k > 0 && s[0] == '.' {
      HasNonDotAt(s[1..], k - 1);
    }
  }

  /** `os.path.splitext(p)[1]`: from the last dot of the final path component
      to the end, provided something other than dots precedes that dot
      within the component; otherwise empty. */
  function Extension(p: string): string
  {
    var sep := LastIndexOf(p, '/');
    var dot := LastIndexOf(p, '.');
    if dot > sep && HasNonDot(p[sep + 1..dot]) then p[dot..] else []
  }

  /** An extension is empty or a suffix of the path that starts with its only
      dot and crosses no separator. */
  lemma ExtensionShape(p: string)
    ensures var ext := Extension(p);
      ext == [] || (ext[0] == '.' && |ext| <= |p| && ext == p[|p| - |ext|..])
    ensures var ext := Extension(p);
      forall k :: 1 <= k < |ext| ==> ext[k] != '.' && ext[k] != '/'
  {
    var sep := LastIndexOf(p, '/');
    var dot := LastIndexOf(p, '.');
    if dot > sep && HasNonDot(p[sep + 1..dot]) {
      var ext := p[dot..];
      assert Extension(p) == ext;
      assert ext[0] == '.' && |ext| == |p| - dot;
      forall k | 1 <= k < |ext| ensures ext[k] != '.' && ext[k] != '/' {
        assert ext[k] == p[dot + k] && sep < dot + k;
      }
    } else {
      assert Extension(p) == [];
    }
  }

  /** `os.path.splitext(p)[0]` */
  function StripExtension(p: string): string
  {
    var ext := Extension(p);
    if |ext| <= |p| then p[..|p| - |ext|] else p
  }

  const ConvertedSuffix: string := "_converted.mat"

  /** The file the import dialog converts `input` into. */
  function OutputPath(input: string): string
  {
    Join(Dirname(input), StripExtension(Basename(input)) + ConvertedSuffix)
  }

  /** What `Join` puts in front of a relative name: nothing, or a directory
      ending in a separator. */
  function DirPrefix(d: string): (prefix: string)
    ensures prefix == [] || prefix[|prefix| - 1] == '/'
  {
    if d == [] then [] else if d[|d| - 1] == '/' then d else d + "/"
  }

  predicate NoSeparator(s: string)
  {
    forall k :: 0 <= k < |s| ==> s[k] != '/'
  }

  lemma JoinRelative(d: string, name: string)
    requires name != [] && NoSeparator(name)
    ensures Join(d, name) == DirPrefix(d) + name
  {
  }

  /** Splitting `prefix + name` at its last separator gives back the parts. */
  lemma SplitAtLastSeparator(prefix: string, name: string)
    requires prefix == [] || prefix[|prefix| - 1] == '/'
    requires NoSeparator(name)
    ensures LastIndexOf(prefix + name, '/') == |prefix| - 1
    ensures Basename(prefix + name) == name
    ensures (prefix + name)[..|prefix|] == prefix
  {
    var p := prefix + name;
    forall k | |prefix| - 1 < k < |p| ensures p[k] != '/' {
      assert p[k] == name[k - |prefix|];
    }
    LastIndexOfUnique(p, '/', |prefix| - 1);
  }

  lemma DirnameOfPrefixed(d: string, name: string)
    requires d == [] || AllSlashes(d) || d[|d| - 1] != '/'
    requires NoSeparator(name)
    ensures Dirname(DirPrefix(d) + name) == d
  {
    var prefix := DirPrefix(d);
    SplitAtLastSeparator(prefix, name);
    assert Dirname(prefix + name) ==
      if prefix != [] && !AllSlashes(prefix) then StripTrailingSlashes(prefix) else prefix;
    if d != [] && d[|d| - 1] != '/' {
      assert prefix == d + "/";
      assert !AllSlashes(prefix) by {
        assert prefix[|d| - 1] != '/';
      }
      assert prefix[..|prefix| - 1] == d;
    }
  }

  /** A base name followed by `_converted.mat`: no separator, a `.mat`
      tail with no other dot, and `_` right after the base. */
  lemma ConvertedName(base: string)
    requires NoSeparator(base)
    ensures var name := base + ConvertedSuffix;
      && NoSeparator(name) && |name| == |base| + 14
      && name[|base|] == '_' && name[|name| - 4] == '.' && name[|name| - 4..] == ".mat"
      && forall k :: |name| - 4 < k < |name| ==> name[k] != '.'
  {
    var name := base + ConvertedSuffix;
    forall k | |base| <= k < |name| ensures name[k] == ConvertedSuffix[k - |base|] { }
    assert name[|name| - 4..] == ConvertedSuffix[10..];
  }

  lemma ExtensionOfConverted(prefix: string, base: string)
    requires prefix == [] || prefix[|prefix| - 1] == '/'
    requires NoSeparator(base)
    ensures Extension(prefix + (base + ConvertedSuffix)) == ".mat"
  {
    var name := base + ConvertedSuffix;
    ConvertedName(base);
    var p := prefix + name;
    SplitAtLastSeparator(prefix, name);
    var dot := |p| - 4;
    forall k | dot < k < |p| ensures p[k] != '.' {
      assert p[k] == name[k - |prefix|];
    }
    assert p[dot] == name[|name| - 4];
    LastIndexOfUnique(p, '.', dot);
    assert p[|prefix|..dot][|base|] == name[|base|];
    HasNonDotAt(p[|prefix|..dot], |base|);
    assert p[dot..] == name[|name| - 4..];
  }

  /** The converted name has no separator, so `OutputPath` is a plain
      concatenation of the input's directory prefix and that name. */
  lemma OutputPathParts(input: string)
    ensures NoSeparator(StripExtension(Basename(input)))
    ensures NoSeparator(StripExtension(Basename(input)) + ConvertedSuffix)
    ensures OutputPath(input) == DirPrefix(Dirname(input)) + (StripExtension(Basename(input)) + ConvertedSuffix)
  {
    var b := Basename(input);
    var base := StripExtension(b);
    assert NoSeparator(base) by {
      forall k | 0 <= k < |base| ensures base[k] != '/' {
        assert base[k] == b[k];
      }
    }
    var name := base + ConvertedSuffix;
    assert NoSeparator(name) by {
      forall k | 0 <= k < |name| ensures name[k] != '/' {
        if k >= |base| {
          assert name[k] == ConvertedSuffix[k - |base|];
        }
      }
    }
    JoinRelative(Dirname(input), name);
  }

  /** The converted file sits in the input's directory, is named after the
      input's base name with its extension replaced by `_converted.mat`,
      and itself has the extension `.mat`. */
  lemma OutputPathShape(input: string)
    ensures Dirname(OutputPath(input)) == Dirname(input)
    ensures Basename(OutputPath(input)) == StripExtension(Basename(input)) + ConvertedSuffix
    ensures Extension(OutputPath(input)) == ".mat"
  {
    var d := Dirname(input);
    var base := StripExtension(Basename(input));
    OutputPathParts(input);
    DirnameShape(input);
    SplitAtLastSeparator(DirPrefix(d), base + ConvertedSuffix);
    DirnameOfPrefixed(d, base + ConvertedSuffix);
    ExtensionOfConverted(DirPrefix(d), base);
  }
}
