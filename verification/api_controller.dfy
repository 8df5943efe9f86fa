/**
 * The local-disk controller: `readDirectory`, which flattens the uploads
 * tree into `{path, content}` entries, and the three handlers that write
 * completion replies or request bodies into that directory.
 *
 * The uploads directory is seen two ways. For reading it is a tree of
 * `Item`s in the order `readdirSync` lists them; for writing it is a map
 * from relative path to content held by the `UploadsDir` object, whose
 * methods stand for `existsSync`, `writeFileSync` and `unlinkSync`.
 * Failures of the file system are an oracle: `fails(t)` is the error the
 * `t`-th file operation of a request throws, if any.
 */
module ApiController {
  import opened Base
  import opened Text

  // ---------------------------------------------------------------------
  // readDirectory
  // ---------------------------------------------------------------------

  /** An entry of a directory listing: a regular file or a sub-directory. */
  datatype Item = FileItem(name: string, content: string) | DirItem(name: string, children: seq<Item>)

  /**
   * The entries `readDirectory` returns for `items`, the listing of the
   * directory reached by the segments `dir` below the uploads root: each
   * file becomes `{path: dir/name, content}`, each sub-directory is
   * replaced by its own entries, in listing order.
   */
  function Flatten(dir: seq<string>, items: seq<Item>): seq<FileInput>
    decreases items
  {
    if items == [] then []
    else Flatten(dir, items[..|items| - 1]) + FlattenItem(dir, items[|items| - 1])
  }

  /** The entries one listing item contributes. */
  function FlattenItem(dir: seq<string>, item: Item): seq<FileInput>
    decreases item
  {
    match item
    case FileItem(n, c) => [FileInput(Join(dir + [n], "/"), c)]
    case DirItem(n, ch) => Flatten(dir + [n], ch)
  }

  /** The recursive walk of the uploads tree, pushing entries as it goes. */
  method ReadDirectory(dir: seq<string>, items: seq<Item>) returns (files: seq<FileInput>)
    ensures files == Flatten(dir, items)
    decreases items
  {
    files := [];
    for i := 0 to |items|
      invariant files == Flatten(dir, items[..i])
    {
      var item := items[i];
      assert items[..i + 1][..i] == items[..i];
      if item.DirItem? {
        var sub := ReadDirectory(dir + [item.name], item.children);
        files := files + sub;
      } else {
        files := files + [FileInput(Join(dir + [item.name], "/"), item.content)];
      }
    }
    assert items[..|items|] == items;
  }

  /**
   * Reference reading of a listing: the position of the entry called
   * `name`, the last one when names repeat.
   */
  function FindIndex(items: seq<Item>, name: string): (r: Option<nat>)
    ensures r.Some? ==> r.value < |items| && items[r.value].name == name
    ensures r.None? ==> forall i :: 0 <= i < |items| ==> items[i].name != name
  {
    if items == [] then None
    else if items[|items| - 1].name == name then Some(|items| - 1)
    else FindIndex(items[..|items| - 1], name)
  }

  /**
   * Reference reading of a tree: the content of the regular file reached by
   * following the path segments `segs` from `items`, or `None`.
   */
  function Lookup(items: seq<Item>, segs: seq<string>): Option<string>
    requires segs != []
    decreases |segs|
  {
    match FindIndex(items, segs[0])
    case None => None
    case Some(i) =>
      match items[i]
      case FileItem(_, c) => if |segs| == 1 then Some(c) else None
      case DirItem(_, ch) => if |segs| == 1 then None else Lookup(ch, segs[1..])
  }

  /** A name `readdirSync` can return: not empty, not `.` or `..`, no slash. */
  predicate ValidName(n: string)
  {
    n != "" && n != "." && n != ".." && '/' !in n
  }

  /** What a real directory tree satisfies: valid names, distinct among siblings. */
  predicate WellFormed(items: seq<Item>)
    decreases items
  {
    (forall i :: 0 <= i < |items| ==> ValidName(items[i].name))
    && (forall i, j :: 0 <= i < j < |items| ==> items[i].name != items[j].name)
    && (forall i :: 0 <= i < |items| ==> items[i].DirItem? ==> WellFormed(items[i].children))
  }

  lemma WellFormedPrefix(items: seq<Item>)
    requires items != [] && WellFormed(items)
    ensures WellFormed(items[..|items| - 1])
    ensures WellFormed([items[|items| - 1]])
  {
    var init := items[..|items| - 1];
    forall i | 0 <= i < |init| ensures init[i] == items[i] { }
  }

  /**
   * A sub-directory's entries are spliced into the listing at the
   * sub-directory's own position: everything listed before it comes first,
   * everything after it comes last.
   */
  lemma {:induction false} FlattenSplices(dir: seq<string>, items: seq<Item>, k: nat)
    requires k < |items|
    ensures Flatten(dir, items)
         == Flatten(dir, items[..k]) + FlattenItem(dir, items[k]) + Flatten(dir, items[k + 1..])
    decreases |items|
  {
    var n := |items| - 1;
    if k == n {
      assert items[k + 1..] == [];
    } else {
      var init := items[..n];
      FlattenSplices(dir, init, k);
      assert init[..k] == items[..k];
      assert init[k] == items[k];
      assert init[k + 1..] == items[k + 1..n];
      assert items[k + 1..][..|items[k + 1..]| - 1] == items[k + 1..n];
      assert items[k + 1..][|items[k + 1..]| - 1] == items[n];
    }
  }

  /** A listing of one item yields exactly that item's entries. */
  lemma FlattenSingle(dir: seq<string>, item: Item)
    ensures Flatten(dir, [item]) == FlattenItem(dir, item)
  {
    assert [item][..0] == [];
  }

  /**
   * Every entry `readDirectory` returns names a regular file of the tree:
   * its path is the directory segments joined by `/`, and following those
   * segments from the root finds exactly that content.
   */
  lemma {:induction false} FlattenSound(dir: seq<string>, items: seq<Item>, k: nat)
    requires WellFormed(items)
    requires k < |Flatten(dir, items)|
    ensures exists segs :: segs != [] && SlashFree(segs)
                        && Flatten(dir, items)[k].path == Join(dir + segs, "/")
                        && Lookup(items, segs) == Some(Flatten(dir, items)[k].content)
    decreases items
  {
    var n := |items| - 1;
    var init, last := items[..n], items[n];
    WellFormedPrefix(items);
    var e := Flatten(dir, items)[k];
    if k < |Flatten(dir, init)| {
      FlattenSound(dir, init, k);
      assert e == Flatten(dir, init)[k];
      var segs :| segs != [] && SlashFree(segs) && e.path == Join(dir + segs, "/")
                  && Lookup(init, segs) == Some(e.content);
      LookupSkipsLast(items, segs);
    } else {
      var k' := k - |Flatten(dir, init)|;
      assert e == FlattenItem(dir, last)[k'];
      assert FindIndex(items, last.name) == Some(n);
      match last
      case FileItem(nm, c) =>
        var segs := [nm];
        assert dir + segs == dir + [nm];
        assert Lookup(items, segs) == Some(c);
      case DirItem(nm, ch) =>
        FlattenSound(dir + [nm], ch, k');
        var rest :| rest != [] && SlashFree(rest) && e.path == Join(dir + [nm] + rest, "/")
                    && Lookup(ch, rest) == Some(e.content);
        var segs := [nm] + rest;
        assert dir + segs == dir + [nm] + rest;
        assert segs[1..] == rest;
        assert Lookup(items, segs) == Lookup(ch, rest);
        assert SlashFree(segs) by {
          forall i | 0 <= i < |segs| ensures '/' !in segs[i] {
            if i > 0 { assert segs[i] == rest[i - 1]; }
          }
        }
    }
  }

  /** A path found among all but the last sibling is found the same way in the whole listing. */
  lemma LookupSkipsLast(items: seq<Item>, segs: seq<string>)
    requires items != [] && WellFormed(items) && segs != []
    requires Lookup(items[..|items| - 1], segs).Some?
    ensures Lookup(items, segs) == Lookup(items[..|items| - 1], segs)
    ensures segs[0] != items[|items| - 1].name
  {
    var n := |items| - 1;
    var init := items[..n];
    var i := FindIndex(init, segs[0]).value;
    assert init[i] == items[i];
    assert items[i].name != items[n].name;
    assert FindIndex(items, segs[0]) == FindIndex(init, segs[0]);
  }

  /**
   * Every regular file of the tree is among the entries `readDirectory`
   * returns, under the path made of its segments.
   */
  lemma {:induction false} FlattenComplete(dir: seq<string>, items: seq<Item>, segs: seq<string>)
    requires segs != [] && Lookup(items, segs).Some?
    ensures FileInput(Join(dir + segs, "/"), Lookup(items, segs).value) in Flatten(dir, items)
    decreases |segs|
  {
    var i := FindIndex(items, segs[0]).value;
    FlattenSplices(dir, items, i);
    var c := Lookup(items, segs).value;
    match items[i]
    case FileItem(nm, _) =>
      assert segs == [nm];
      assert FileInput(Join(dir + segs, "/"), c) in FlattenItem(dir, items[i]);
    case DirItem(nm, ch) =>
      assert Lookup(ch, segs[1..]) == Some(c);
      FlattenComplete(dir + [nm], ch, segs[1..]);
      assert dir + [nm] + segs[1..] == dir + segs;
      assert FileInput(Join(dir + segs, "/"), c) in FlattenItem(dir, items[i]);
  }

  lemma SlashFreeAppend(a: seq<string>, b: seq<string>)
    requires SlashFree(a) && SlashFree(b)
    ensures SlashFree(a + b)
  {
    forall i | 0 <= i < |a + b| ensures '/' !in (a + b)[i] {
      if i >= |a| { assert (a + b)[i] == b[i - |a|]; }
    }
  }

  /** Entries contributed by the last sibling all lie below that sibling's name. */
  lemma LastEntriesStartWith(dir: seq<string>, items: seq<Item>, q: nat)
    requires items != [] && WellFormed(items)
    requires q < |FlattenItem(dir, items[|items| - 1])|
    ensures exists segs :: segs != [] && SlashFree(segs) && segs[0] == items[|items| - 1].name
                        && FlattenItem(dir, items[|items| - 1])[q].path == Join(dir + segs, "/")
  {
    var last := items[|items| - 1];
    WellFormedPrefix(items);
    FlattenSingle(dir, last);
    FlattenSound(dir, [last], q);
    var segs :| segs != [] && SlashFree(segs)
                && Flatten(dir, [last])[q].path == Join(dir + segs, "/")
                && Lookup([last], segs).Some?;
    assert segs[0] == last.name;
  }

  /** Two equal paths below a slash-free directory agree on their first segment below it. */
  lemma SamePathSameFirstSegment(dir: seq<string>, a: seq<string>, b: seq<string>)
    requires SlashFree(dir) && a != [] && b != [] && SlashFree(a) && SlashFree(b)
    ensures Join(dir + a, "/") == Join(dir + b, "/") ==> a[0] == b[0]
  {
    SlashFreeAppend(dir, a);
    SlashFreeAppend(dir, b);
    if Join(dir + a, "/") == Join(dir + b, "/") {
      JoinPathInjective(dir + a, dir + b);
      assert a[0] == (dir + a)[|dir|];
      assert b[0] == (dir + b)[|dir|];
    }
  }

  /** No path occurs twice. */
  predicate DistinctPaths(es: seq<FileInput>)
  {
    forall i, j :: 0 <= i < j < |es| ==> es[i].path != es[j].path
  }

  /**
   * In a real tree `readDirectory` never returns the same path twice, so
   * the listing sent in the prompt names each file once.
   */
  lemma {:induction false} FlattenPathsDistinct(dir: seq<string>, items: seq<Item>)
    requires WellFormed(items) && SlashFree(dir)
    ensures DistinctPaths(Flatten(dir, items))
    decreases items
  {
    if items != [] {
      var n := |items| - 1;
      var init, last := items[..n], items[n];
      WellFormedPrefix(items);
      var a, b := Flatten(dir, init), FlattenItem(dir, last);
      var f := Flatten(dir, items);
      assert f == a + b;
      FlattenPathsDistinct(dir, init);
      ItemPathsDistinct(dir, last);
      forall i, j | 0 <= i < j < |f| ensures f[i].path != f[j].path {
        if j < |a| {
          assert f[i] == a[i] && f[j] == a[j];
        } else if i >= |a| {
          assert f[i] == b[i - |a|] && f[j] == b[j - |a|];
        } else {
          assert f[i] == a[i] && f[j] == b[j - |a|];
          EarlierAndLastDiffer(dir, items, i, j - |a|);
        }
      }
    }
  }

  /** The entries one item of a real tree contributes have distinct paths. */
  lemma {:induction false} ItemPathsDistinct(dir: seq<string>, item: Item)
    requires SlashFree(dir) && ValidName(item.name)
    requires item.DirItem? ==> WellFormed(item.children)
    ensures DistinctPaths(FlattenItem(dir, item))
    decreases item
  {
    match item
    case FileItem(_, _) =>
    case DirItem(nm, ch) =>
      SlashFreeAppend(dir, [nm]);
      FlattenPathsDistinct(dir + [nm], ch);
  }

  /** An entry of an earlier sibling and an entry of the last sibling have different paths. */
  lemma EarlierAndLastDiffer(dir: seq<string>, items: seq<Item>, i: nat, q: nat)
    requires items != [] && WellFormed(items) && SlashFree(dir)
    requires i < |Flatten(dir, items[..|items| - 1])|
    requires q < |FlattenItem(dir, items[|items| - 1])|
    ensures Flatten(dir, items[..|items| - 1])[i].path != FlattenItem(dir, items[|items| - 1])[q].path
  {
    var init, last := items[..|items| - 1], items[|items| - 1];
    var a, b := Flatten(dir, init), FlattenItem(dir, last);
    WellFormedPrefix(items);
    FlattenSound(dir, init, i);
    var sa :| sa != [] && SlashFree(sa) && a[i].path == Join(dir + sa, "/")
              && Lookup(init, sa) == Some(a[i].content);
    LookupSkipsLast(items, sa);
    LastEntriesStartWith(dir, items, q);
    var sb :| sb != [] && SlashFree(sb) && sb[0] == last.name && b[q].path == Join(dir + sb, "/");
    SamePathSameFirstSegment(dir, sa, sb);
  }

  // ---------------------------------------------------------------------
  // The update prompt
  // ---------------------------------------------------------------------

  /** What the update prompt asks the completion to return. */
  const ReplyFormat :=
    "Please analyze these files and provide necessary updates. Return response in the following format:\n"
    + "{\n"
    + "  \"files\": [\n"
    + "    {\n"
    + "      \"action\": \"update\" | \"add\" | \"delete\",\n"
    + "      \"path\": \"file_path\",\n"
    + "      \"content\": \"file_content\" // only for add or update actions\n"
    + "    }\n"
    + "  ],\n"
    + "  \"description\": \"Description of changes made\"\n"
    + "}\n"

  /** The user message of `handleUpdateFiles`: the listing of the uploads tree, the request, the format. */
  function UpdatePrompt(current: seq<FileInput>, prompt: string): string
  {
    "\nCurrent project files:\n" + Listing(current) + "\n\nUser request:\n" + prompt + "\n\n" + ReplyFormat
  }

  /** Slicing the middle part out of a three-part string. */
  lemma MiddleOf(x: string, y: string, z: string)
    ensures (x + y + z)[|x|..|x| + |y|] == y
    ensures (x + y + z)[|x| + |y|..] == z
  {
    assert x + y + z == x + (y + z);
  }

  /** The update prompt quotes every current file's block at its place in the listing. */
  lemma UpdatePromptQuotesFile(current: seq<FileInput>, prompt: string, i: nat)
    requires i < |current|
    ensures var o := 24 + BlockOffset(current, i);
            o + |FileBlock(current[i])| <= |UpdatePrompt(current, prompt)|
            && UpdatePrompt(current, prompt)[o..o + |FileBlock(current[i])|] == FileBlock(current[i])
  {
    var head := "\nCurrent project files:\n";
    var l := Listing(current);
    var rest := "\n\nUser request:\n" + prompt + "\n\n" + ReplyFormat;
    assert |head| == 24;
    assert UpdatePrompt(current, prompt) == head + l + rest;
    MiddleOf(head, l, rest);
    ListingShowsFile(current, i);
  }

  /** After the listing, the update prompt quotes the user's request verbatim, then the reply format. */
  lemma UpdatePromptQuotesRequest(current: seq<FileInput>, prompt: string)
    ensures var h := 24 + |Listing(current)| + 16;
            h + |prompt| <= |UpdatePrompt(current, prompt)|
            && UpdatePrompt(current, prompt)[h..h + |prompt|] == prompt
            && UpdatePrompt(current, prompt)[h + |prompt|..] == "\n\n" + ReplyFormat
  {
    var head := "\nCurrent project files:\n" + Listing(current) + "\n\nUser request:\n";
    assert |head| == 24 + |Listing(current)| + 16;
    var tail := "\n\n" + ReplyFormat;
    assert UpdatePrompt(current, prompt) == head + prompt + tail;
    MiddleOf(head, prompt, tail);
  }

  // ---------------------------------------------------------------------
  // Writes into the uploads directory
  // ---------------------------------------------------------------------

  /** The uploads directory after some file operations, and the error that stopped them. */
  datatype Written = Written(files: map<string, string>, error: Option<string>)

  /**
   * `p` names a directory of the uploads tree: the root itself, or a proper
   * prefix of a stored path that ends where a `/` follows.
   */
  predicate IsDirectory(m: map<string, string>, p: string)
  {
    p == "" || exists q :: q in m && |p| < |q| && q[..|p| + 1] == p + "/"
  }

  /** The path names a directory and no regular file. */
  predicate DirectoryOnly(m: map<string, string>, p: string)
  {
    p !in m && IsDirectory(m, p)
  }

  /**
   * The start of the message Node gives (on Linux) when `syscall` meets a
   * directory: `unlink` for `unlinkSync`, `open` for `writeFileSync`.
   */
  function DirectoryError(syscall: string): string
  {
    "EISDIR: illegal operation on a directory, " + syscall
  }

  /**
   * One pass of the update loop over the directory `m`. A delete of a
   * present path (a file or a directory, as `existsSync` sees it) and every
   * add or update make one file-system call; that call throws on a
   * directory, and otherwise throws `fail` when that is set. A delete of an
   * absent path makes no call; any other action is skipped.
   */
  function UpdateOne(m: map<string, string>, op: FileOp, fail: Option<string>): (r: Written)
    ensures Touches(op) && DirectoryOnly(m, op.path) ==>
              r == Written(m, Some(DirectoryError(if IsDelete(op) then "unlink" else "open")))
    ensures r.error.Some? <==>
              Touches(op) && (DirectoryOnly(m, op.path) || (fail.Some? && (IsWrite(op) || op.path in m)))
    ensures r.error.Some? ==> r.files == m
    ensures r.error.Some? && !DirectoryOnly(m, op.path) ==> r.error == fail
    ensures r.error.None? && IsWrite(op) ==> op.path in r.files && r.files[op.path] == op.content
    ensures r.error.None? && IsDelete(op) ==> op.path !in r.files
    ensures forall q :: q != op.path || !Touches(op) ==>
              (q in r.files <==> q in m) && (q in m ==> r.files[q] == m[q])
  {
    if IsDelete(op) then
      if op.path in m then
        if fail.Some? then Written(m, fail) else Written(m - {op.path}, None)
      else if IsDirectory(m, op.path) then Written(m, Some(DirectoryError("unlink")))
      else Written(m, None)
    else if IsWrite(op) then
      if DirectoryOnly(m, op.path) then Written(m, Some(DirectoryError("open")))
      else if fail.Some? then Written(m, fail)
      else Written(m[op.path := op.content], None)
    else Written(m, None)
  }

  /**
   * A delete that names a directory, reached after the operations before
   * it completed, passes the `existsSync` guard and throws `EISDIR` from
   * `unlink`; the loop ends there, so the directory stays as the earlier
   * operations left it and the operations after it never run.
   */
  lemma DeletingADirectoryAborts(m: map<string, string>, ops: seq<FileOp>, fails: nat -> Option<string>, j: nat)
    requires j < |ops| && IsDelete(ops[j])
    requires UpdateAll(m, ops[..j], fails).error.None?
    requires DirectoryOnly(UpdateAll(m, ops[..j], fails).files, ops[j].path)
    ensures UpdateAll(m, ops, fails) == Written(UpdateAll(m, ops[..j], fails).files, Some(DirectoryError("unlink")))
  {
    FirstFailureDecides(m, ops, fails, j);
  }

  /**
   * The loop over `ops` from the directory `m`: operation `t` sees the
   * error `fails(t)`, and the first operation that throws ends the loop.
   */
  function UpdateAll(m: map<string, string>, ops: seq<FileOp>, fails: nat -> Option<string>): Written
    decreases |ops|
  {
    if ops == [] then Written(m, None)
    else
      var before := UpdateAll(m, ops[..|ops| - 1], fails);
      if before.error.Some? then before
      else UpdateOne(before.files, ops[|ops| - 1], fails(|ops| - 1))
  }

  /** Writing a `{path, content}` element is the same file-system call as an "add". */
  function AsWrite(f: FileInput): FileOp
  {
    FileOp("add", f.path, f.content)
  }

  /** The write operations for a list of `{path, content}` elements. */
  function Writes(inputs: seq<FileInput>): seq<FileOp>
  {
    seq(|inputs|, i requires 0 <= i < |inputs| => AsWrite(inputs[i]))
  }

  /** One more round of the write loop: `writeFileSync` on the directory the earlier writes left. */
  lemma WriteStep(m: map<string, string>, inputs: seq<FileInput>, fails: nat -> Option<string>, i: nat)
    requires i < |inputs|
    requires UpdateAll(m, Writes(inputs)[..i], fails).error.None?
    ensures var before := UpdateAll(m, Writes(inputs)[..i], fails).files;
            var error := if DirectoryOnly(before, inputs[i].path) then Some(DirectoryError("open")) else fails(i);
            UpdateAll(m, Writes(inputs)[..i + 1], fails)
            == Written(if error.None? then before[inputs[i].path := inputs[i].content] else before, error)
  {
    var ops := Writes(inputs);
    assert ops[..i + 1][..i] == ops[..i];
    assert ops[i] == AsWrite(inputs[i]);
  }

  /** Once an operation has thrown, the operations after it change nothing. */
  lemma {:induction false} ErrorStopsTheLoop(m: map<string, string>, ops: seq<FileOp>,
                                             fails: nat -> Option<string>, k: nat)
    requires k <= |ops| && UpdateAll(m, ops[..k], fails).error.Some?
    ensures UpdateAll(m, ops, fails) == UpdateAll(m, ops[..k], fails)
    decreases |ops|
  {
    if k < |ops| {
      var init := ops[..|ops| - 1];
      assert init[..k] == ops[..k];
      ErrorStopsTheLoop(m, init, fails, k);
    } else {
      assert ops[..k] == ops;
    }
  }

  /**
   * The loop's outcome when operation `j` is the first to throw: what that
   * one operation does to the directory the earlier operations left, which
   * is that directory unchanged together with `j`'s error.
   */
  lemma FirstFailureDecides(m: map<string, string>, ops: seq<FileOp>, fails: nat -> Option<string>, j: nat)
    requires j < |ops|
    requires UpdateAll(m, ops[..j], fails).error.None?
    requires UpdateOne(UpdateAll(m, ops[..j], fails).files, ops[j], fails(j)).error.Some?
    ensures UpdateAll(m, ops, fails) == UpdateOne(UpdateAll(m, ops[..j], fails).files, ops[j], fails(j))
    ensures UpdateAll(m, ops, fails).files == UpdateAll(m, ops[..j], fails).files
  {
    assert ops[..j + 1][..j] == ops[..j];
    ErrorStopsTheLoop(m, ops, fails, j + 1);
  }

  /**
   * Without file-system errors the loop stops only at an operation that
   * deletes or writes a path which is a directory at that point.
   */
  lemma {:induction false} NoFailureStopsOnlyAtDirectories(m: map<string, string>, ops: seq<FileOp>, fails: nat -> Option<string>)
    requires forall t :: 0 <= t < |ops| ==> fails(t).None?
    ensures UpdateAll(m, ops, fails).error.Some? ==>
              exists j :: 0 <= j < |ops| && Touches(ops[j]) && DirectoryOnly(UpdateAll(m, ops[..j], fails).files, ops[j].path)
    decreases |ops|
  {
    if ops != [] {
      var init := ops[..|ops| - 1];
      NoFailureStopsOnlyAtDirectories(m, init, fails);
      if UpdateAll(m, ops, fails).error.Some? {
        if UpdateAll(m, init, fails).error.Some? {
          var j :| 0 <= j < |init| && Touches(init[j]) && DirectoryOnly(UpdateAll(m, init[..j], fails).files, init[j].path);
          assert init[..j] == ops[..j];
          assert init[j] == ops[j];
        } else {
          assert ops[..|ops| - 1] == init;
        }
      }
    }
  }

  /** Without file-system errors and with no directory in the way, the loop runs to the end. */
  lemma NoFailureNoError(m: map<string, string>, ops: seq<FileOp>, fails: nat -> Option<string>)
    requires forall t :: 0 <= t < |ops| ==> fails(t).None?
    requires forall j :: 0 <= j < |ops| ==> !DirectoryOnly(UpdateAll(m, ops[..j], fails).files, ops[j].path)
    ensures UpdateAll(m, ops, fails).error.None?
  {
    NoFailureStopsOnlyAtDirectories(m, ops, fails);
  }

  /** The position of the last operation in `ops` that acts on `p`. */
  function LastTouch(ops: seq<FileOp>, p: string): (r: Option<nat>)
    ensures r.Some? ==> r.value < |ops| && Touches(ops[r.value]) && ops[r.value].path == p
    ensures r.Some? ==> forall t :: r.value < t < |ops| ==> !(Touches(ops[t]) && ops[t].path == p)
    ensures r.None? ==> forall t :: 0 <= t < |ops| ==> !(Touches(ops[t]) && ops[t].path == p)
  {
    if ops == [] then None
    else if Touches(ops[|ops| - 1]) && ops[|ops| - 1].path == p then Some(|ops| - 1)
    else LastTouch(ops[..|ops| - 1], p)
  }

  /**
   * After a loop that completed, each path holds what the last operation
   * on it left: the content of a last add or update, nothing after a last
   * delete, and its old content when no operation named it.
   */
  lemma {:induction false} LastOperationWins(m: map<string, string>, ops: seq<FileOp>,
                                            fails: nat -> Option<string>, p: string)
    requires UpdateAll(m, ops, fails).error.None?
    ensures var r := UpdateAll(m, ops, fails).files;
            match LastTouch(ops, p)
            case Some(j) =>
              (IsWrite(ops[j]) ==> p in r && r[p] == ops[j].content) && (IsDelete(ops[j]) ==> p !in r)
            case None => (p in r <==> p in m) && (p in m ==> r[p] == m[p])
    decreases |ops|
  {
    if ops != [] {
      var init := ops[..|ops| - 1];
      var last := ops[|ops| - 1];
      var before := UpdateAll(m, init, fails);
      assert before.error.None?;
      LastOperationWins(m, init, fails, p);
      if !(Touches(last) && last.path == p) {
        assert LastTouch(ops, p) == LastTouch(init, p);
        match LastTouch(init, p)
        case Some(j) => assert init[j] == ops[j];
        case None =>
      }
    }
  }

  /** After a completed save loop every submitted path holds the content last submitted for it. */
  lemma EverySubmittedFileIsSaved(m: map<string, string>, inputs: seq<FileInput>,
                                  fails: nat -> Option<string>, k: nat)
    requires k < |inputs| && UpdateAll(m, Writes(inputs), fails).error.None?
    ensures inputs[k].path in UpdateAll(m, Writes(inputs), fails).files
    ensures exists j :: k <= j < |inputs| && inputs[j].path == inputs[k].path
                        && (forall t :: j < t < |inputs| ==> inputs[t].path != inputs[k].path)
                        && UpdateAll(m, Writes(inputs), fails).files[inputs[k].path] == inputs[j].content
  {
    var ops := Writes(inputs);
    LastOperationWins(m, ops, fails, inputs[k].path);
    assert Touches(ops[k]) && ops[k].path == inputs[k].path;
    var j := LastTouch(ops, inputs[k].path).value;
    assert ops[j] == AsWrite(inputs[j]);
    forall t | j < t < |inputs|
      ensures inputs[t].path != inputs[k].path
    {
      assert ops[t] == AsWrite(inputs[t]);
    }
  }

  // ---------------------------------------------------------------------
  // The handlers
  // ---------------------------------------------------------------------

  /** A `{files, description}` reply to a generation prompt; `files` may be absent. */
  datatype PromptReply = PromptReply(files: Option<seq<FileInput>>, description: string)

  /** One element of `handleFiles`' answer. */
  datatype SavedFile = SavedFile(path: string, url: string)

  datatype Body =
    | Echo(reply: PromptReply)
    | FilesSaved(files: seq<SavedFile>)
    | ErrorOnly(error: string)
    | Updated(message: string, description: string)
    | UpdateFailed(error: string, details: string)

  datatype Response = Response(status: nat, body: Body)

  /** The uploads directory as a map from relative path to content. */
  class UploadsDir {
    var files: map<string, string>

    constructor (initial: map<string, string>)
      ensures files == initial
    {
      files := initial;
    }

    /** `fs.existsSync`: true for a stored file and for a directory. */
    method Exists(path: string) returns (present: bool)
      ensures present == (path in files || IsDirectory(files, path))
    {
      present := path in files || IsDirectory(files, path);
    }

    /**
     * `fs.writeFileSync`, together with the `mkdirSync` of missing parent
     * directories before it. Writing over a directory throws; otherwise
     * `fail` is the error the call throws, if any.
     */
    method WriteFile(path: string, content: string, fail: Option<string>) returns (error: Option<string>)
      modifies this
      ensures error == if DirectoryOnly(old(files), path) then Some(DirectoryError("open")) else fail
      ensures files == if error.None? then old(files)[path := content] else old(files)
    {
      if DirectoryOnly(files, path) {
        return Some(DirectoryError("open"));
      }
      error := fail;
      if fail.None? {
        files := files[path := content];
      }
    }

    /** `fs.unlinkSync`: unlinking a directory throws; otherwise `fail` is the error it throws, if any. */
    method Unlink(path: string, fail: Option<string>) returns (error: Option<string>)
      modifies this
      ensures error == if DirectoryOnly(old(files), path) then Some(DirectoryError("unlink")) else fail
      ensures files == if error.None? then old(files) - {path} else old(files)
    {
      if DirectoryOnly(files, path) {
        return Some(DirectoryError("unlink"));
      }
      error := fail;
      if fail.None? {
        files := files - {path};
      }
    }

    /** One pass of the update loop: delete if present, or add/update, or skip. */
    method ApplyOperation(op: FileOp, fail: Option<string>) returns (error: Option<string>)
      modifies this
      ensures Written(files, error) == UpdateOne(old(files), op, fail)
    {
      if op.action == "delete" {
        var present := Exists(op.path);
        if present {
          error := Unlink(op.path, fail);
        } else {
          error := None;
        }
      } else if op.action == "add" || op.action == "update" {
        error := WriteFile(op.path, op.content, fail);
      } else {
        error := None;
      }
    }

    /** The update loop, stopping at the first operation that throws. */
    method ApplyOperations(ops: seq<FileOp>, fails: nat -> Option<string>) returns (error: Option<string>)
      modifies this
      ensures Written(files, error) == UpdateAll(old(files), ops, fails)
    {
      error := None;
      var i := 0;
      while i < |ops| && error.None?
        invariant 0 <= i <= |ops|
        invariant Written(files, error) == UpdateAll(old(files), ops[..i], fails)
      {
        assert ops[..i + 1][..i] == ops[..i];
        error := ApplyOperation(ops[i], fails(i));
        i := i + 1;
      }
      if error.Some? {
        ErrorStopsTheLoop(old(files), ops, fails, i);
      } else {
        assert ops[..i] == ops;
      }
    }

    /** The save loop of `handlePrompt`: one write per element, stopping at the first that throws. */
    method WriteFiles(inputs: seq<FileInput>, fails: nat -> Option<string>) returns (error: Option<string>)
      modifies this
      ensures Written(files, error) == UpdateAll(old(files), Writes(inputs), fails)
    {
      ghost var ops := Writes(inputs);
      error := None;
      var i := 0;
      while i < |inputs| && error.None?
        invariant 0 <= i <= |inputs|
        invariant Written(files, error) == UpdateAll(old(files), ops[..i], fails)
      {
        WriteStep(old(files), inputs, fails, i);
        error := WriteFile(inputs[i].path, inputs[i].content, fails(i));
        i := i + 1;
      }
      if error.Some? {
        ErrorStopsTheLoop(old(files), ops, fails, i);
      } else {
        assert ops[..i] == ops;
      }
    }

    /**
     * `handlePrompt`: the reply (or the error of the completion call or of
     * its parsing) is an input. A reply with a non-empty `files` list is
     * written file by file; the reply itself is echoed on success, and any
     * thrown error gives the fixed 500 answer.
     */
    method HandlePrompt(reply: Result<PromptReply>, fails: nat -> Option<string>) returns (response: Response)
      modifies this
      ensures reply.Err? ==> response == Response(500, ErrorOnly("Failed to process prompt")) && files == old(files)
      ensures reply.Ok? && (reply.value.files.None? || reply.value.files.value == []) ==>
                response == Response(200, Echo(reply.value)) && files == old(files)
      ensures reply.Ok? && reply.value.files.Some? ==>
                var w := UpdateAll(old(files), Writes(reply.value.files.value), fails);
                files == w.files
                && response == if w.error.None? then Response(200, Echo(reply.value))
                               else Response(500, ErrorOnly("Failed to process prompt"))
    {
      if reply.Err? {
        return Response(500, ErrorOnly("Failed to process prompt"));
      }
      var r := reply.value;
      if r.files.Some? && |r.files.value| > 0 {
        var error := WriteFiles(r.files.value, fails);
        if error.Some? {
          return Response(500, ErrorOnly("Failed to process prompt"));
        }
      }
      response := Response(200, Echo(r));
    }

    /**
     * `handleUpdateFiles`: `uploads` is the uploads tree or the error
     * reading it throws; `reply` the parsed completion or the error of the
     * call or of the parse. `sent` is the prompt sent to the completion.
     */
    method HandleUpdateFiles(uploads: Result<seq<Item>>, prompt: string, reply: Result<UpdateReply>,
                             fails: nat -> Option<string>)
      returns (response: Response, sent: Option<string>)
      modifies this
      ensures uploads.Err? ==>
                response == Response(500, UpdateFailed("Failed to update files", uploads.message))
                && sent.None? && files == old(files)
      ensures uploads.Ok? ==> sent == Some(UpdatePrompt(Flatten([], uploads.value), prompt))
      ensures uploads.Ok? && reply.Err? ==>
                response == Response(500, UpdateFailed("Failed to update files", reply.message))
                && files == old(files)
      ensures uploads.Ok? && reply.Ok? && reply.value.files.None? ==>
                response == Response(500, UpdateFailed("Failed to update files", NotIterable))
                && files == old(files)
      ensures uploads.Ok? && reply.Ok? && reply.value.files.Some? ==>
                var w := UpdateAll(old(files), reply.value.files.value, fails);
                files == w.files
                && response == match w.error
                               case None => Response(200, Updated("Files updated successfully", reply.value.description))
                               case Some(e) => Response(500, UpdateFailed("Failed to update files", e))
    {
      sent := None;
      if uploads.Err? {
        return Response(500, UpdateFailed("Failed to update files", uploads.message)), sent;
      }
      var current := ReadDirectory([], uploads.value);
      sent := Some(UpdatePrompt(current, prompt));
      if reply.Err? {
        return Response(500, UpdateFailed("Failed to update files", reply.message)), sent;
      }
      if reply.value.files.None? {
        return Response(500, UpdateFailed("Failed to update files", NotIterable)), sent;
      }
      var error := ApplyOperations(reply.value.files.value, fails);
      match error
      case Some(e) =>
        response := Response(500, UpdateFailed("Failed to update files", e));
      case None =>
        response := Response(200, Updated("Files updated successfully", reply.value.description));
    }

    /**
     * `handleFiles`: writes each `{path, content}` element and answers with
     * its path and its `/uploads/` URL; a missing or non-iterable `files`,
     * or a write that throws, gives the fixed 500 answer.
     */
    method HandleFiles(payload: Payload, fails: nat -> Option<string>) returns (response: Response)
      modifies this
      ensures !payload.Items? ==> response == Response(500, ErrorOnly("Failed to save files")) && files == old(files)
      ensures payload.Items? ==>
                var w := UpdateAll(old(files), Writes(payload.files), fails);
                files == w.files
                && (w.error.Some? ==> response == Response(500, ErrorOnly("Failed to save files")))
                && (w.error.None? ==> response.status == 200 && response.body.FilesSaved?
                                      && |response.body.files| == |payload.files|)
      ensures payload.Items? && response.status == 200 ==>
                forall k :: 0 <= k < |payload.files| ==>
                  response.body.files[k] == SavedFile(payload.files[k].path, "/uploads/" + payload.files[k].path)
    {
      if !payload.Items? {
        return Response(500, ErrorOnly("Failed to save files"));
      }
      var inputs := payload.files;
      var error := WriteFiles(inputs, fails);
      if error.Some? {
        return Response(500, ErrorOnly("Failed to save files"));
      }
      var saved := seq(|inputs|, k requires 0 <= k < |inputs| => SavedFile(inputs[k].path, "/uploads/" + inputs[k].path));
      response := Response(200, FilesSaved(saved));
    }
  }
}
