/**
 * The editor's file explorer: the shape of a tree node, the "new file /
 * new folder" name input, expanded folders, the extension-to-language
 * table used when a file is created, and the rows the panel shows.
 */
module FileTree {
  import opened Wrappers
  import opened Text
  import JsRecord

  datatype NodeKind = File | Folder

  /** A folder's optional `children` array (an absent array and an empty one render differently). */
  datatype Children = NoChildren | Children(nodes: seq<FileNode>)

  /** A file or folder of the workspace; `language` and `content` belong to files, `children` to folders. */
  datatype FileNode = FileNode(
    id: string,
    name: string,
    kind: NodeKind,
    language: Option<string>,
    content: Option<string>,
    children: Children)

  // ---------------------------------------------------------------------
  // Extension -> language

  /** `name.split(".").pop()`: the text after the last dot, or the whole name when it has no dot. */
  function LastSegment(name: string): (ext: string)
    ensures '.' !in ext
    ensures |ext| <= |name| && ext == name[|name| - |ext|..]
    ensures |ext| < |name| ==> name[|name| - |ext| - 1] == '.'
  {
    if name == [] then []
    else if name[|name| - 1] == '.' then []
    else LastSegment(name[..|name| - 1]) + [name[|name| - 1]]
  }

  /** A name without a dot is its own extension. */
  lemma LastSegmentNoDot(name: string)
    requires '.' !in name
    ensures LastSegment(name) == name
  {
  }

  /** The segment after the last dot is the extension, whatever comes before the dot. */
  lemma {:induction false} LastSegmentAfterDot(base: string, ext: string)
    requires '.' !in ext
    ensures LastSegment(base + ['.'] + ext) == ext
    decreases |ext|
  {
    var name := base + ['.'] + ext;
    if ext != [] {
      var init := ext[..|ext| - 1];
      assert name[..|name| - 1] == base + ['.'] + init;
      assert name[|name| - 1] == ext[|ext| - 1];
      LastSegmentAfterDot(base, init);
      assert ext == init + [ext[|ext| - 1]];
    }
  }

  /** The language a file falls back to when its extension is not in the table. */
  const DefaultLanguage := "python"

  /** `langMap`: lower-case extension -> editor language. */
  const LangMap: map<string, string> := map[
    "py" := "python", "js" := "javascript", "cpp" := "cpp", "java" := "java",
    "c" := "c", "cs" := "csharp", "rb" := "ruby", "go" := "go", "rs" := "rust",
    "php" := "php", "swift" := "swift", "kt" := "kotlin", "ts" := "typescript",
    "html" := "html", "css" := "css", "json" := "json"]

  /** The lower-case extension `handleCreate` looks up. */
  function ExtensionKey(name: string): string {
    ToLower(LastSegment(name))
  }

  /**
   * The language of a new file: the table's entry for its lower-cased
   * extension, or the default. Only the table's own entries are consulted
   * (the corrected form of the lookup, see `LanguageAsWritten`).
   */
  function LanguageFor(name: string): (lang: string)
    ensures ExtensionKey(name) in LangMap ==> lang == LangMap[ExtensionKey(name)]
    ensures ExtensionKey(name) !in LangMap ==> lang == DefaultLanguage
  {
    var ext := ExtensionKey(name);
    if ext in LangMap then LangMap[ext] else DefaultLanguage
  }

  /**
   * `langMap[ext || ""] || "python"` as JavaScript evaluates it: every
   * table value is a non-empty string, an inherited member of
   * Object.prototype is truthy, and `undefined` falls back to "python".
   */
  function LanguageAsWritten(name: string): (r: JsRecord.Read<string>)
    ensures r.Undefined? == false
  {
    match JsRecord.PropertyRead(LangMap, JsRecord.ObjectPrototypeMembers, ExtensionKey(name))
    case Own(v) => JsRecord.Own(v)
    case Inherited(m) => JsRecord.Inherited(m)
    case Undefined => JsRecord.Own(DefaultLanguage)
  }

  /** The as-written lookup and the corrected one agree except on extensions naming an Object.prototype member. */
  lemma LanguageAsWrittenAgrees(name: string)
    requires ExtensionKey(name) !in JsRecord.ObjectPrototypeMembers
    ensures LanguageAsWritten(name) == JsRecord.Own(LanguageFor(name))
  {
  }

  /** The lookup key of a dotted name is its last segment, lower-cased. */
  lemma ExtensionKeyAfterDot(base: string, ext: string)
    requires '.' !in ext
    ensures ExtensionKey(base + ['.'] + ext) == ToLower(ext)
  {
    LastSegmentAfterDot(base, ext);
  }

  /** The lookup key of a name without a dot is the whole name, lower-cased. */
  lemma ExtensionKeyNoDot(name: string)
    requires '.' !in name
    ensures ExtensionKey(name) == ToLower(name)
  {
    LastSegmentNoDot(name);
  }

  /** `constructor` is not an entry of the table, but every object literal inherits it. */
  lemma ConstructorInherited()
    ensures JsRecord.PropertyRead(LangMap, JsRecord.ObjectPrototypeMembers, "constructor") == JsRecord.Inherited("constructor")
  {
    assert "constructor" !in LangMap;
  }

  /** The lookup key of `<anything>.constructor`. */
  lemma ConstructorKey(base: string)
    ensures ExtensionKey(base + ".constructor") == "constructor"
  {
    assert ExtensionKey(base + ".constructor") == ToLower("constructor") by {
      assert base + ".constructor" == base + ['.'] + "constructor";
      ExtensionKeyAfterDot(base, "constructor");
    }
    ConstructorLower();
  }

  /** `constructor` is already lower-case. */
  lemma ConstructorLower()
    ensures ToLower("constructor") == "constructor"
  {
    ToLowerNoUpper("constructor");
  }

  /** A file named `<anything>.constructor` gets the `Object` constructor function as its language, not a string. */
  lemma LanguageAsWrittenInheritedMember(base: string)
    ensures LanguageAsWritten(base + ".constructor") == JsRecord.Inherited("constructor")
  {
    ConstructorKey(base);
    ConstructorInherited();
  }

  /** The extension is lower-cased before the lookup. */
  lemma LanguageUpperCaseExtension(base: string)
    ensures LanguageFor(base + ".PY") == "python"
  {
    assert base + ".PY" == base + ['.'] + "PY";
    ExtensionKeyAfterDot(base, "PY");
  }

  /** Only the text after the last dot counts: `app.test.ts` is TypeScript. */
  lemma LanguageLastDot(base: string)
    ensures LanguageFor(base + ".test.ts") == "typescript"
  {
    assert base + ".test.ts" == (base + ".test") + ['.'] + "ts";
    ExtensionKeyAfterDot(base + ".test", "ts");
    ToLowerNoUpper("ts");
  }

  /** A name without a dot is looked up as its own extension: a file named `js` is JavaScript. */
  lemma LanguageNoDot()
    ensures LanguageFor("js") == "javascript"
  {
    ExtensionKeyNoDot("js");
    ToLowerNoUpper("js");
  }

  /** A trailing dot gives the empty extension, which falls back to the default. */
  lemma LanguageEmptyExtension(base: string)
    ensures LanguageFor(base + ".") == "python"
  {
    assert base + "." == base + ['.'] + "";
    ExtensionKeyAfterDot(base, "");
  }

  /** An extension outside the table falls back to the default. */
  lemma LanguageUnknownExtension(base: string)
    ensures LanguageFor(base + ".md") == "python"
  {
    assert base + ".md" == base + ['.'] + "md";
    ExtensionKeyAfterDot(base, "md");
    ToLowerNoUpper("md");
  }

  // ---------------------------------------------------------------------
  // Creating a node

  /** What `handleCreate` asks the editor page to do. */
  datatype CreateIntent =
    | NoCallback
    | CreateFile(parentId: Option<string>, name: string, language: string)
    | CreateFolder(parentId: Option<string>, name: string)

  /**
   * The callback `handleCreate` fires for the current input: none for a
   * blank name, `onCreateFile` when a file is being created, and
   * `onCreateFolder` otherwise (also when no type is set). The name is
   * passed untrimmed.
   */
  function CreateIntentFor(creatingIn: Option<string>, creatingType: Option<NodeKind>, newName: string): (intent: CreateIntent)
    ensures intent.NoCallback? <==> IsBlank(newName)
    ensures intent.CreateFile? <==> !IsBlank(newName) && creatingType == Some(File)
    ensures intent.CreateFolder? <==> !IsBlank(newName) && creatingType != Some(File)
    ensures intent.CreateFile? ==> intent == CreateFile(creatingIn, newName, LanguageFor(newName))
    ensures intent.CreateFolder? ==> intent == CreateFolder(creatingIn, newName)
  {
    if Trim(newName) == [] then NoCallback
    else if creatingType == Some(File) then CreateFile(creatingIn, newName, LanguageFor(newName))
    else CreateFolder(creatingIn, newName)
  }

  /** The expanded-folder set after `toggleFolder(id)`. */
  function Toggled(expanded: set<string>, id: string): (r: set<string>)
    ensures id in r <==> id !in expanded
    ensures forall other :: other != id ==> (other in r <==> other in expanded)
  {
    if id in expanded then expanded - {id} else expanded + {id}
  }

  /** Toggling the same folder twice restores the expanded set. */
  lemma ToggleTwice(expanded: set<string>, id: string)
    ensures Toggled(Toggled(expanded, id), id) == expanded
  {
  }

  /** The explorer's local state. */
  class Explorer {
    var expandedFolders: set<string>
    var creatingIn: Option<string>
    var creatingType: Option<NodeKind>
    var newName: string

    constructor ()
      ensures expandedFolders == {} && creatingIn == None && creatingType == None && newName == ""
    {
      expandedFolders := {};
      creatingIn := None;
      creatingType := None;
      newName := "";
    }

    /** `toggleFolder`: copy the set, add or delete `id` on the copy, store the copy. */
    method ToggleFolder(id: string)
      modifies this`expandedFolders
      ensures expandedFolders == Toggled(old(expandedFolders), id)
    {
      var next := expandedFolders;
      if id in next {
        next := next - {id};
      } else {
        next := next + {id};
      }
      expandedFolders := next;
    }

    /** `startCreating`: open the name input under `parentId` (`None` = top level). */
    method StartCreating(parentId: Option<string>, kind: NodeKind)
      modifies this`creatingIn, this`creatingType, this`newName
      ensures creatingIn == parentId && creatingType == Some(kind) && newName == ""
    {
      creatingIn := parentId;
      creatingType := Some(kind);
      newName := "";
    }

    /** Typing in the name input. */
    method EditName(text: string)
      modifies this`newName
      ensures newName == text
    {
      newName := text;
    }

    /** Escape in the name input: closes it but keeps the typed text. */
    method CancelCreating()
      modifies this`creatingIn, this`creatingType
      ensures creatingIn == None && creatingType == None
    {
      creatingIn := None;
      creatingType := None;
    }

    /** `handleCreate` (Enter in the name input): fire at most one callback, then close the input. */
    method HandleCreate() returns (intent: CreateIntent)
      modifies this`creatingIn, this`creatingType, this`newName
      ensures intent == CreateIntentFor(old(creatingIn), old(creatingType), old(newName))
      ensures intent.NoCallback? ==> creatingIn == old(creatingIn) && creatingType == old(creatingType) && newName == old(newName)
      ensures !intent.NoCallback? ==> creatingIn == None && creatingType == None && newName == ""
    {
      intent := CreateIntentFor(creatingIn, creatingType, newName);
      if intent.NoCallback? {
        return;
      }
      creatingIn := None;
      creatingType := None;
      newName := "";
    }
  }

  // ---------------------------------------------------------------------
  // Rendering

  /** One line of the explorer panel. */
  datatype Row =
    | NodeRow(id: string, name: string, kind: NodeKind, depth: nat, expanded: bool, selected: bool)
    | NameInput(depth: nat, placeholder: string)

  /** What rendering reads: the explorer's state and the selected file id it receives. */
  datatype View = View(expanded: set<string>, creatingIn: Option<string>, creatingType: Option<NodeKind>, selectedFileId: Option<string>)

  /** The name input's placeholder. */
  function Placeholder(creatingType: Option<NodeKind>): string {
    if creatingType == Some(File) then "filename.ext" else "folder-name"
  }

  /** The row that shows `node` itself. */
  function HeadRow(node: FileNode, depth: nat, v: View): Row {
    NodeRow(node.id, node.name, node.kind, depth, node.id in v.expanded, v.selectedFileId == Some(node.id))
  }

  /**
   * `renderNode`: the node's row, then, for an expanded folder that has a
   * children array, its children one level deeper, followed by the name
   * input when the input belongs to this folder.
   */
  function RenderNode(node: FileNode, depth: nat, v: View): (rows: seq<Row>)
    ensures |rows| >= 1 && rows[0] == HeadRow(node, depth, v)
    ensures forall r :: r in rows && r.NodeRow? ==> r.depth >= depth
    ensures forall r :: r in rows && r.NameInput? ==> r.depth > depth
    decreases node, 1
  {
    if node.kind == Folder && node.id in v.expanded && node.children.Children? then
      [HeadRow(node, depth, v)]
        + RenderForest(node.children.nodes, depth + 1, v)
        + (if v.creatingIn == Some(node.id) then [NameInput(depth + 1, Placeholder(v.creatingType))] else [])
    else
      [HeadRow(node, depth, v)]
  }

  /** The rows of a sequence of sibling nodes, in order. */
  function RenderForest(nodes: seq<FileNode>, depth: nat, v: View): (rows: seq<Row>)
    ensures forall r :: r in rows && r.NodeRow? ==> r.depth >= depth
    ensures forall r :: r in rows && r.NameInput? ==> r.depth > depth
    decreases nodes, 0
  {
    if nodes == [] then []
    else RenderNode(nodes[0], depth, v) + RenderForest(nodes[1..], depth, v)
  }

  /** The whole panel: the top-level nodes, then the top-level name input when one is open. */
  function RenderExplorer(files: seq<FileNode>, v: View): seq<Row> {
    RenderForest(files, 0, v)
      + (if v.creatingIn.None? && v.creatingType.Some? then [NameInput(0, Placeholder(v.creatingType))] else [])
  }

  /** The top-level name input is shown exactly when creation is under no parent and a type is set. */
  lemma TopLevelInputShown(files: seq<FileNode>, v: View)
    ensures (exists r :: r in RenderExplorer(files, v) && r.NameInput? && r.depth == 0)
        <==> v.creatingIn.None? && v.creatingType.Some?
  {
    var rows := RenderExplorer(files, v);
    if v.creatingIn.None? && v.creatingType.Some? {
      assert rows[|rows| - 1] == NameInput(0, Placeholder(v.creatingType));
    }
  }

  /** When none of the sibling nodes is expanded, they show one row each and none of their descendants. */
  lemma {:induction false} CollapsedForest(nodes: seq<FileNode>, depth: nat, v: View)
    requires forall i :: 0 <= i < |nodes| ==> nodes[i].id !in v.expanded
    ensures RenderForest(nodes, depth, v) == seq(|nodes|, i requires 0 <= i < |nodes| => HeadRow(nodes[i], depth, v))
    decreases nodes
  {
    if nodes != [] {
      CollapsedForest(nodes[1..], depth, v);
    }
  }

  /** A collapsed folder, a folder without a `children` array, and a file each show only their own row. */
  lemma ClosedNodeOneRow(node: FileNode, depth: nat, v: View)
    requires node.kind == File || node.id !in v.expanded || node.children.NoChildren?
    ensures RenderNode(node, depth, v) == [HeadRow(node, depth, v)]
  {
  }

  /** Every sibling's own row is drawn, at the siblings' depth. */
  lemma {:induction false} ForestShowsEach(nodes: seq<FileNode>, depth: nat, v: View)
    ensures forall i :: 0 <= i < |nodes| ==> HeadRow(nodes[i], depth, v) in RenderForest(nodes, depth, v)
    decreases nodes
  {
    if nodes != [] {
      ForestShowsEach(nodes[1..], depth, v);
      forall i | 0 <= i < |nodes|
        ensures HeadRow(nodes[i], depth, v) in RenderForest(nodes, depth, v)
      {
        if i > 0 {
          assert nodes[i] == nodes[1..][i - 1];
        }
      }
    }
  }

  /** An expanded folder with a `children` array draws every child's row one level deeper. */
  lemma ExpandedFolderShowsChildren(node: FileNode, depth: nat, v: View)
    requires node.kind == Folder && node.id in v.expanded && node.children.Children?
    ensures forall i :: 0 <= i < |node.children.nodes| ==>
      HeadRow(node.children.nodes[i], depth + 1, v) in RenderNode(node, depth, v)
  {
    ForestShowsEach(node.children.nodes, depth + 1, v);
  }

  /** The rows of two runs of siblings are the rows of the first run followed by those of the second. */
  lemma {:induction false} ForestAppend(a: seq<FileNode>, b: seq<FileNode>, depth: nat, v: View)
    ensures RenderForest(a + b, depth, v) == RenderForest(a, depth, v) + RenderForest(b, depth, v)
    decreases a
  {
    if a == [] {
      assert a + b == b;
    } else {
      assert (a + b)[1..] == a[1..] + b;
      ForestAppend(a[1..], b, depth, v);
    }
  }
}
