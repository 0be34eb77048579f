/** Files and folders as an actor sees them, and the box-drawing tree a
    folder renders to (file_system.py). A `Folder` object is updated in place
    by `AddFile` / `AddSubfolder`; the folders nested inside it are kept as
    `FolderTree` values, which is also what the tree is rendered from. */
module FileSystem {
  import opened Text

  datatype FileEntry = FileEntry(path: string, name: string)

  /** A folder with everything below it, as a value. */
  datatype FolderTree = FolderTree(path: string, name: string, files: seq<FileEntry>, subfolders: seq<FolderTree>)

  function FileName(f: FileEntry): string { f.name }

  function FolderName(f: FolderTree): string { f.name }

  /** The connector before the very last entry of a folder. */
  const LastBranch: string := "\U{2514}\U{2500}\U{2500} "
  /** The connector before every other file entry. */
  const Branch: string := "\U{251C}\U{2500}\U{2500} "
  /** Indentation added below the last subfolder. */
  const BlankIndent: string := "    "
  /** Indentation added below every other subfolder. */
  const PipeIndent: string := "\U{2502}   "

  function Header(f: FolderTree, indent: string): string
  {
    indent + f.name + "/"
  }

  function FileConnector(f: FolderTree, i: nat): string
  {
    if i == |f.files| - 1 && |f.subfolders| == 0 then LastBranch else Branch
  }

  function ChildIndent(f: FolderTree, indent: string, j: nat): string
  {
    indent + (if j == |f.subfolders| - 1 then BlankIndent else PipeIndent)
  }

  /** One line per file, in name order. */
  function FileLines(f: FolderTree, indent: string): (lines: seq<string>)
    ensures |lines| == |f.files|
  {
    var files := SortBy(f.files, FileName);
    seq(|files|, i requires 0 <= i < |files| => indent + FileConnector(f, i) + files[i].name)
  }

  /** One block per subfolder, in name order. */
  function SubBlocks(f: FolderTree, indent: string): (blocks: seq<string>)
    ensures |blocks| == |f.subfolders|
    decreases f, 0
  {
    var subs := SortBy(f.subfolders, FolderName);
    seq(|subs|, j requires 0 <= j < |subs| =>
      assert subs[j] in multiset(f.subfolders);
      RenderTree(subs[j], ChildIndent(f, indent, j)))
  }

  /** The entries `tree` joins with newlines: the header, the file lines,
      then the subfolder blocks. */
  function TreeParts(f: FolderTree, indent: string): (parts: seq<string>)
    decreases f, 1
  {
    [Header(f, indent)] + FileLines(f, indent) + SubBlocks(f, indent)
  }

  /** `Folder.tree(indent)` on a folder value. */
  function RenderTree(f: FolderTree, indent: string): string
    decreases f, 2
  {
    Join("\n", TreeParts(f, indent))
  }

  /** Number of lines `tree` produces: the header, the files, and the lines
      of every subfolder. */
  function LineCount(f: FolderTree): nat
    decreases f
  {
    1 + |f.files| + LinesOf(f.subfolders)
  }

  function LinesOf(fs: seq<FolderTree>): nat
    decreases fs
  {
    if fs == [] then 0 else LinesOf(fs[..|fs| - 1]) + LineCount(fs[|fs| - 1])
  }

  /** No folder or file name below `f` (nor `f`'s own) contains a newline. */
  predicate NamesOnOneLine(f: FolderTree)
  {
    && '\n' !in f.name
    && (forall x :: x in f.files ==> '\n' !in x.name)
    && (forall s :: s in f.subfolders ==> NamesOnOneLine(s))
  }

  /** The first line of the tree is the indented folder name with a slash;
      an empty folder renders as that line alone. */
  lemma TreeFirstLine(f: FolderTree, indent: string)
    ensures RenderTree(f, indent) == Header(f, indent) || Header(f, indent) + "\n" <= RenderTree(f, indent)
    ensures f.files == [] && f.subfolders == [] ==> RenderTree(f, indent) == indent + f.name + "/"
  {
    JoinStartsWithFirst("\n", TreeParts(f, indent));
  }

  /** File lines come right after the header, in ascending name order, each
      with the `├── ` connector except the last file of a folder without
      subfolders, which gets `└── `; then come the subfolder blocks in
      ascending name order, the last indented with blanks and the others
      with a vertical bar. The layout clauses spell out `TreeParts`,
      `FileLines` and `SubBlocks` with the connectors named; what is proved
      here is that both lists are sorted permutations of the folder's own
      (and `SortByStable` adds that equal names keep their order). */
  lemma TreeOrder(f: FolderTree, indent: string)
    ensures TreeParts(f, indent) == [Header(f, indent)] + FileLines(f, indent) + SubBlocks(f, indent)
    ensures var files := SortBy(f.files, FileName);
            && SortedBy(files, FileName) && multiset(files) == multiset(f.files)
            && forall i :: 0 <= i < |files| ==>
                 FileLines(f, indent)[i] ==
                   indent + (if i == |f.files| - 1 && f.subfolders == [] then LastBranch else Branch) + files[i].name
    ensures var subs := SortBy(f.subfolders, FolderName);
            && SortedBy(subs, FolderName) && multiset(subs) == multiset(f.subfolders)
            && forall j :: 0 <= j < |subs| ==>
                 SubBlocks(f, indent)[j] ==
                   RenderTree(subs[j], indent + (if j == |subs| - 1 then BlankIndent else PipeIndent))
  {
    SortBySorted(f.files, FileName);
    SortBySorted(f.subfolders, FolderName);
  }

  lemma {:induction false} OneLineParts(parts: seq<string>)
    requires forall i :: 0 <= i < |parts| ==> '\n' !in parts[i]
    ensures TotalNewlines(parts) == 0
  {
    if parts != [] {
      OneLineParts(parts[..|parts| - 1]);
      assert '\n' !in multiset(parts[|parts| - 1]);
    }
  }

  lemma {:induction false} LinesOfIsSum(fs: seq<FolderTree>)
    ensures LinesOf(fs) == SumOf(fs, LineCount)
  {
    if fs != [] {
      LinesOfIsSum(fs[..|fs| - 1]);
    }
  }

  /** The header and file lines hold no newline. */
  lemma HeadOnOneLine(f: FolderTree, indent: string)
    requires NamesOnOneLine(f) && '\n' !in indent
    ensures TotalNewlines([Header(f, indent)] + FileLines(f, indent)) == 0
  {
    var head := [Header(f, indent)] + FileLines(f, indent);
    var files := SortBy(f.files, FileName);
    assert '\n' !in LastBranch && '\n' !in Branch;
    forall i | 0 <= i < |head|
      ensures '\n' !in head[i]
    {
      if i > 0 {
        assert files[i - 1] in multiset(f.files);
        assert head[i] == indent + FileConnector(f, i - 1) + files[i - 1].name;
      }
    }
    OneLineParts(head);
  }

  /** Blocks that each have as many lines as their folder's LineCount
      add up to the folders' total. */
  lemma {:induction false} BlocksLineCount(blocks: seq<string>, subs: seq<FolderTree>)
    requires |blocks| == |subs|
    requires forall j :: 0 <= j < |subs| ==> Newlines(blocks[j]) + 1 == LineCount(subs[j])
    ensures TotalNewlines(blocks) + |blocks| == SumOf(subs, LineCount)
  {
    if blocks != [] {
      var n := |blocks|;
      BlocksLineCount(blocks[..n - 1], subs[..n - 1]);
    }
  }

  /** For names on one line, the tree has as many lines as LineCount says:
      one for the folder, one per file, and those of each subfolder. */
  lemma {:induction false} TreeLineCount(f: FolderTree, indent: string)
    requires NamesOnOneLine(f) && '\n' !in indent
    ensures Newlines(RenderTree(f, indent)) + 1 == LineCount(f)
    decreases f
  {
    var head := [Header(f, indent)] + FileLines(f, indent);
    var blocks := SubBlocks(f, indent);
    var subs := SortBy(f.subfolders, FolderName);
    assert TreeParts(f, indent) == head + blocks;
    HeadOnOneLine(f, indent);
    forall j | 0 <= j < |subs|
      ensures Newlines(blocks[j]) + 1 == LineCount(subs[j])
    {
      SubBlockAt(f, indent, j);
      assert '\n' !in BlankIndent && '\n' !in PipeIndent;
      TreeLineCount(subs[j], ChildIndent(f, indent, j));
    }
    BlocksLineCount(blocks, subs);
    TotalNewlinesAppend(head, blocks);
    JoinNewlines(head + blocks);
    LinesOfIsSum(f.subfolders);
    SumOfPermutation(subs, f.subfolders, LineCount);
  }

  lemma SubBlockAt(f: FolderTree, indent: string, j: nat)
    requires j < |f.subfolders|
    ensures SortBy(f.subfolders, FolderName)[j] in f.subfolders
    ensures SubBlocks(f, indent)[j] == RenderTree(SortBy(f.subfolders, FolderName)[j], ChildIndent(f, indent, j))
  {
    assert SortBy(f.subfolders, FolderName)[j] in multiset(f.subfolders);
  }

  /** A folder object: its name and path never change; its own file and
      subfolder lists grow in place. */
  class Folder {
    const path: string
    const name: string
    var files: seq<FileEntry>
    var subfolders: seq<FolderTree>

    constructor (path: string, name: string)
      ensures this.path == path && this.name == name
      ensures files == [] && subfolders == []
    {
      this.path := path;
      this.name := name;
      files := [];
      subfolders := [];
    }

    /** The folder and its contents as a value. */
    function Snapshot(): (v: FolderTree)
      reads this
    {
      FolderTree(path, name, files, subfolders)
    }

    /** `tree(indent)`. */
    function Tree(indent: string := ""): string
      reads this
    {
      RenderTree(Snapshot(), indent)
    }

    /** Appends one file at the end of `files`; nothing else changes. */
    method AddFile(file: FileEntry)
      modifies this`files
      ensures files == old(files) + [file]
    {
      files := files + [file];
    }

    /** Appends one folder at the end of `subfolders`; nothing else changes. */
    method AddSubfolder(folder: FolderTree)
      modifies this`subfolders
      ensures subfolders == old(subfolders) + [folder]
    {
      subfolders := subfolders + [folder];
    }
  }

  /** The folders of a list, as values, in list order. */
  function Snapshots(fs: seq<Folder>): (r: seq<FolderTree>)
    reads fs
    ensures |r| == |fs|
    ensures forall i :: 0 <= i < |fs| ==> r[i] == fs[i].Snapshot()
  {
    if fs == [] then [] else Snapshots(fs[..|fs| - 1]) + [fs[|fs| - 1].Snapshot()]
  }
}
