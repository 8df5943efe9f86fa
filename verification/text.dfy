/**
 * String helpers the controllers rely on: `Array.prototype.join`, the
 * per-file block and listing placed in the update prompts, the UTF-8 byte
 * length reported by `Buffer.byteLength(s, 'utf8')`, and POSIX
 * `path.basename`.
 */
module Text {
  import opened Base

  // ---------------------------------------------------------------------
  // Array.prototype.join
  // ---------------------------------------------------------------------

  /** `parts.join(sep)`: the parts in order with `sep` between neighbours. */
  function Join(parts: seq<string>, sep: string): string
  {
    if |parts| == 0 then ""
    else if |parts| == 1 then parts[0]
    else parts[0] + sep + Join(parts[1..], sep)
  }

  /** Where part `i` starts inside `Join(parts, sep)`. */
  function PartOffset(parts: seq<string>, sep: string, i: nat): nat
    requires i <= |parts|
  {
    if i == 0 then 0 else |parts[0]| + |sep| + PartOffset(parts[1..], sep, i - 1)
  }

  /** The total length of the parts. */
  function TotalLength(parts: seq<string>): nat
  {
    if parts == [] then 0 else |parts[0]| + TotalLength(parts[1..])
  }

  /** Every part appears verbatim, in order, at its offset, preceded by the separator. */
  lemma {:induction false} JoinShowsPart(parts: seq<string>, sep: string, i: nat)
    requires i < |parts|
    ensures PartOffset(parts, sep, i) + |parts[i]| <= |Join(parts, sep)|
    ensures Join(parts, sep)[PartOffset(parts, sep, i)..PartOffset(parts, sep, i) + |parts[i]|] == parts[i]
    ensures 0 < i ==> Join(parts, sep)[PartOffset(parts, sep, i) - |sep|..PartOffset(parts, sep, i)] == sep
  {
    if i == 0 {
      JoinStartsWithFirst(parts, sep);
    } else {
      JoinShowsPart(parts[1..], sep, i - 1);
      JoinShiftsRest(parts, sep, PartOffset(parts[1..], sep, i - 1), |parts[i]|);
      if i == 1 {
        JoinSeparatorAfterFirst(parts, sep);
      } else {
        var o := PartOffset(parts[1..], sep, i - 1);
        JoinShiftsRest(parts, sep, o - |sep|, |sep|);
      }
    }
  }

  lemma JoinStartsWithFirst(parts: seq<string>, sep: string)
    requires parts != []
    ensures |parts[0]| <= |Join(parts, sep)| && Join(parts, sep)[..|parts[0]|] == parts[0]
  {
    if |parts| > 1 {
      assert Join(parts, sep) == parts[0] + (sep + Join(parts[1..], sep));
    }
  }

  lemma JoinSeparatorAfterFirst(parts: seq<string>, sep: string)
    requires |parts| > 1
    ensures |parts[0]| + |sep| <= |Join(parts, sep)|
    ensures Join(parts, sep)[|parts[0]|..|parts[0]| + |sep|] == sep
  {
    assert Join(parts, sep) == (parts[0] + sep) + Join(parts[1..], sep);
  }

  /** A slice of the join of the tail, moved past the first part and separator. */
  lemma JoinShiftsRest(parts: seq<string>, sep: string, o: nat, n: nat)
    requires |parts| > 1
    requires o + n <= |Join(parts[1..], sep)|
    ensures |parts[0]| + |sep| + o + n <= |Join(parts, sep)|
    ensures Join(parts, sep)[|parts[0]| + |sep| + o..|parts[0]| + |sep| + o + n]
            == Join(parts[1..], sep)[o..o + n]
  {
    var h := parts[0] + sep;
    var rest := Join(parts[1..], sep);
    assert Join(parts, sep) == h + rest;
    assert (h + rest)[|h| + o..|h| + o + n] == rest[o..o + n];
  }

  /** The joined string is exactly the parts plus one separator between each neighbouring pair. */
  lemma {:induction false} JoinLength(parts: seq<string>, sep: string)
    requires parts != []
    ensures |Join(parts, sep)| == TotalLength(parts) + (|parts| - 1) * |sep|
  {
    if |parts| > 1 {
      JoinLength(parts[1..], sep);
    }
  }

  /** No segment contains a slash. */
  predicate SlashFree(segs: seq<string>)
  {
    forall i :: 0 <= i < |segs| ==> '/' !in segs[i]
  }

  /** In `x + "/" + r` with a slash-free `x`, the first slash sits right after `x`. */
  lemma FirstSlashAt(x: string, r: string)
    requires '/' !in x
    ensures (x + "/" + r)[|x|] == '/'
    ensures forall k :: 0 <= k < |x| ==> (x + "/" + r)[k] != '/'
  {
    forall k | 0 <= k < |x| ensures (x + "/" + r)[k] != '/' {
      assert (x + "/" + r)[k] == x[k] && x[k] in x;
    }
  }

  /** Joining slash-free segments with "/" loses nothing: the path determines its segments. */
  lemma {:induction false} JoinPathInjective(a: seq<string>, b: seq<string>)
    requires a != [] && b != [] && SlashFree(a) && SlashFree(b)
    requires Join(a, "/") == Join(b, "/")
    ensures a == b
  {
    var j := Join(a, "/");
    if |a| > 1 && |b| > 1 {
      var ra, rb := Join(a[1..], "/"), Join(b[1..], "/");
      assert j == a[0] + "/" + ra;
      assert j == b[0] + "/" + rb;
      if |a[0]| == |b[0]| {
        assert a[0] == j[..|a[0]|] == b[0];
        assert ra == j[|a[0]| + 1..] == rb;
        assert SlashFree(a[1..]) by {
          forall i | 0 <= i < |a[1..]| ensures '/' !in a[1..][i] { assert a[1..][i] == a[i + 1]; }
        }
        assert SlashFree(b[1..]) by {
          forall i | 0 <= i < |b[1..]| ensures '/' !in b[1..][i] { assert b[1..][i] == b[i + 1]; }
        }
        JoinPathInjective(a[1..], b[1..]);
        assert a == [a[0]] + a[1..] && b == [b[0]] + b[1..];
      } else {
        FirstSlashAt(a[0], ra);
        FirstSlashAt(b[0], rb);
        assert false;
      }
    }
  }

  // ---------------------------------------------------------------------
  // The file listing placed in the update prompts
  // ---------------------------------------------------------------------

  /** `File: <path>\nContent:\n<content>` (controllers/api.controller.js:88, files.controller.js:87). */
  function FileBlock(f: FileInput): string
  {
    "File: " + f.path + "\nContent:\n" + f.content
  }

  /** One block per file, in the files' order. */
  function Blocks(files: seq<FileInput>): (bs: seq<string>)
    ensures |bs| == |files|
    ensures forall i :: 0 <= i < |files| ==> bs[i] == FileBlock(files[i])
  {
    if files == [] then [] else [FileBlock(files[0])] + Blocks(files[1..])
  }

  /** The blocks joined by a blank line: `files.map(block).join('\n\n')`. */
  function Listing(files: seq<FileInput>): string
  {
    Join(Blocks(files), "\n\n")
  }

  /** Where the block of file `i` starts inside the listing. */
  function BlockOffset(files: seq<FileInput>, i: nat): nat
    requires i <= |files|
  {
    PartOffset(Blocks(files), "\n\n", i)
  }

  /**
   * The listing shows every file, in order: the block of file `i` sits at its
   * offset and is preceded by a blank line unless it is the first.
   */
  lemma ListingShowsFile(files: seq<FileInput>, i: nat)
    requires i < |files|
    ensures BlockOffset(files, i) + |FileBlock(files[i])| <= |Listing(files)|
    ensures Listing(files)[BlockOffset(files, i)..BlockOffset(files, i) + |FileBlock(files[i])|]
            == "File: " + files[i].path + "\nContent:\n" + files[i].content
    ensures 0 < i ==> Listing(files)[BlockOffset(files, i) - 2..BlockOffset(files, i)] == "\n\n"
  {
    JoinShowsPart(Blocks(files), "\n\n", i);
  }

  /** No files, empty listing. */
  lemma ListingOfNoFiles()
    ensures Listing([]) == ""
  {
  }

  /** The text between the header and the request is the listing and nothing more. */
  lemma ListingLength(files: seq<FileInput>)
    requires files != []
    ensures |Listing(files)| == TotalLength(Blocks(files)) + 2 * (|files| - 1)
  {
    JoinLength(Blocks(files), "\n\n");
  }

  // ---------------------------------------------------------------------
  // Buffer.byteLength(s, 'utf8')
  // ---------------------------------------------------------------------

  /** The number of bytes UTF-8 uses for one Unicode scalar value. */
  function Utf8Width(c: char): nat
  {
    if c as int < 0x80 then 1
    else if c as int < 0x800 then 2
    else if c as int < 0x1_0000 then 3
    else 4
  }

  /** The UTF-8 byte length of a string. */
  function Utf8Length(s: string): nat
  {
    if s == [] then 0 else Utf8Width(s[0]) + Utf8Length(s[1..])
  }

  predicate IsAscii(s: string)
  {
    forall i :: 0 <= i < |s| ==> s[i] as int < 0x80
  }

  /** Byte lengths add up over concatenation. */
  lemma {:induction false} Utf8LengthAppend(a: string, b: string)
    ensures Utf8Length(a + b) == Utf8Length(a) + Utf8Length(b)
  {
    if a != [] {
      assert (a + b)[0] == a[0];
      assert (a + b)[1..] == a[1..] + b;
      Utf8LengthAppend(a[1..], b);
    } else {
      assert a + b == b;
    }
  }

  /** Between one and four bytes per character; exactly one for ASCII text. */
  lemma {:induction false} Utf8LengthBounds(s: string)
    ensures |s| <= Utf8Length(s) <= 4 * |s|
    ensures IsAscii(s) ==> Utf8Length(s) == |s|
  {
    if s != [] {
      Utf8LengthBounds(s[1..]);
      assert IsAscii(s) ==> IsAscii(s[1..]) by {
        if IsAscii(s) {
          forall i | 0 <= i < |s[1..]| ensures s[1..][i] as int < 0x80 {
            assert s[1..][i] == s[i + 1];
          }
        }
      }
    }
  }

  // ---------------------------------------------------------------------
  // path.basename (POSIX)
  // ---------------------------------------------------------------------

  /** `p` without its trailing run of slashes. */
  function TrimTrailingSlashes(p: string): (q: string)
    ensures |q| <= |p| && q == p[..|q|]
    ensures q == [] || q[|q| - 1] != '/'
    ensures forall i :: |q| <= i < |p| ==> p[i] == '/'
  {
    if |p| > 0 && p[|p| - 1] == '/' then TrimTrailingSlashes(p[..|p| - 1]) else p
  }

  /** The characters after the last slash of `q` (all of `q` when it has none). */
  function AfterLastSlash(q: string): string
  {
    if q == [] || q[|q| - 1] == '/' then "" else AfterLastSlash(q[..|q| - 1]) + [q[|q| - 1]]
  }

  /** `path.basename(p)`: the last segment, ignoring trailing slashes; "" when there is none. */
  function Basename(p: string): string
  {
    AfterLastSlash(TrimTrailingSlashes(p))
  }

  /** The part after the last slash holds no slash and ends the string. */
  lemma {:induction false} AfterLastSlashIsSuffix(q: string)
    ensures |AfterLastSlash(q)| <= |q|
    ensures AfterLastSlash(q) == q[|q| - |AfterLastSlash(q)|..]
    ensures '/' !in AfterLastSlash(q)
    ensures |AfterLastSlash(q)| < |q| ==> q[|q| - |AfterLastSlash(q)| - 1] == '/'
  {
    if q != [] && q[|q| - 1] != '/' {
      var init := q[..|q| - 1];
      var c := q[|q| - 1];
      AfterLastSlashIsSuffix(init);
      var r := AfterLastSlash(init);
      assert AfterLastSlash(q) == r + [c];
      assert r + [c] == q[|q| - |r| - 1..] by {
        assert r == init[|init| - |r|..];
        assert init[|init| - |r|..] + [c] == q[|q| - |r| - 1..];
      }
      assert '/' !in r + [c] by {
        forall k | 0 <= k < |r| + 1 ensures (r + [c])[k] != '/' {
          if k < |r| { assert (r + [c])[k] == r[k] && r[k] in r; }
        }
      }
      if |r| + 1 < |q| {
        assert q[|q| - |r| - 2] == init[|init| - |r| - 1];
      }
    }
  }

  /**
   * The basename has no slash and is the segment that ends `p` once trailing
   * slashes are dropped; a slash-free segment after a slash is its own basename.
   */
  lemma BasenameIsLastSegment(p: string)
    ensures '/' !in Basename(p)
    ensures |Basename(p)| <= |TrimTrailingSlashes(p)|
    ensures var q := TrimTrailingSlashes(p);
            Basename(p) == q[|q| - |Basename(p)|..]
            && (|Basename(p)| < |q| ==> q[|q| - |Basename(p)| - 1] == '/')
  {
    var q := TrimTrailingSlashes(p);
    assert Basename(p) == AfterLastSlash(q);
    AfterLastSlashIsSuffix(q);
  }

  /** `path.basename(dir + "/" + name) == name` for a non-empty name without slashes. */
  lemma {:induction false} BasenameOfJoin(dir: string, name: string)
    requires name != [] && '/' !in name
    ensures Basename(dir + "/" + name) == name
    ensures Basename(name) == name
  {
    BasenameOfSegment(dir + "/", name);
    BasenameOfSegment([], name);
    assert [] + name == name;
  }

  /** A non-empty slash-free segment after a slash (or alone) is the basename. */
  lemma BasenameOfSegment(dir: string, name: string)
    requires dir == [] || dir[|dir| - 1] == '/'
    requires name != [] && '/' !in name
    ensures Basename(dir + name) == name
  {
    var x := dir + name;
    assert x[|x| - 1] == name[|name| - 1];
    assert name[|name| - 1] in name;
    assert TrimTrailingSlashes(x) == x;
    AfterLastSlashOfSegment(dir, name);
  }

  lemma {:induction false} AfterLastSlashOfSegment(dir: string, name: string)
    requires dir == [] || dir[|dir| - 1] == '/'
    requires '/' !in name
    ensures AfterLastSlash(dir + name) == name
  {
    if name != [] {
      var x := dir + name;
      var init := name[..|name| - 1];
      var last := name[|name| - 1];
      assert x[|x| - 1] == last;
      assert last in name;
      assert x[..|x| - 1] == dir + init;
      assert AfterLastSlash(x) == AfterLastSlash(dir + init) + [last];
      AfterLastSlashOfSegment(dir, init);
      assert init + [last] == name;
    } else {
      assert dir + name == dir;
    }
  }
}
