/**
 * The editor's command palette (src/components/editor/CommandPalette.tsx):
 * a fixed list of commands, filtered case-insensitively by the search
 * text, and a selection cursor moved with the arrow keys that wraps at
 * both ends.
 */
module CommandPalette {
  import opened Wrappers
  import opened Text
  import Lists

  /** One entry of the palette; `caption` is its `label` (a reserved word in Dafny), and its icon is left out. */
  datatype CommandItem = CommandItem(id: string, caption: string, shortcut: Option<string>, category: string)

  /** `commands`, in display order. */
  const Commands: seq<CommandItem> := [
    CommandItem("run", "Run Code", Some("Ctrl+R"), "Actions"),
    CommandItem("save", "Save Project", Some("Ctrl+S"), "Actions"),
    CommandItem("ai", "Ask AI Assistant", Some("Ctrl+K"), "AI"),
    CommandItem("search", "Search Files", Some("Ctrl+P"), "Navigation"),
    CommandItem("new-file", "New File", Some("Ctrl+N"), "File"),
    CommandItem("settings", "Settings", None, "Settings")
  ]

  /** A command matches the search when its caption or its category contains it, ignoring case. */
  predicate Matches(cmd: CommandItem, search: string) {
    IncludesIgnoringCase(cmd.caption, search) || IncludesIgnoringCase(cmd.category, search)
  }

  /** `filtered`: the matching entries of `commands` (the palette passes `Commands`), in their original order. */
  function Filtered(commands: seq<CommandItem>, search: string): (r: seq<CommandItem>)
    ensures |r| == Lists.Count(commands, c => Matches(c, search)) <= |commands|
    ensures forall c :: c in r ==> c in commands && Matches(c, search)
    ensures forall i :: 0 <= i < |commands| && Matches(commands[i], search) ==> commands[i] in r
    ensures Lists.IsSubsequence(r, commands)
  {
    Lists.Filter(commands, c => Matches(c, search))
  }

  /** With an empty search every command is listed. */
  lemma EmptySearchListsAll(commands: seq<CommandItem>)
    ensures Filtered(commands, "") == commands
  {
    forall i | 0 <= i < |commands|
      ensures Matches(commands[i], "")
    {
      EmptyQueryMatches(commands[i].caption);
    }
  }

  /** ArrowDown: `(s + 1) % n`. */
  function NextIndex(s: nat, n: nat): (r: nat)
    requires n > 0
    ensures r < n
    ensures s + 1 < n ==> r == s + 1
    ensures s + 1 == n ==> r == 0
  {
    (s + 1) % n
  }

  /** ArrowUp: `(s - 1 + n) % n`. */
  function PrevIndex(s: nat, n: nat): (r: nat)
    requires n > 0
    ensures r < n
    ensures 0 < s <= n ==> r == s - 1
    ensures s == 0 ==> r == n - 1
  {
    (s - 1 + n) % n
  }

  /** The two arrow keys undo each other on an index in range. */
  lemma ArrowKeysInverse(s: nat, n: nat)
    requires s < n
    ensures PrevIndex(NextIndex(s, n), n) == s
    ensures NextIndex(PrevIndex(s, n), n) == s
  {
  }

  /** The keys `handleKeyDown` distinguishes. */
  datatype Key = ArrowDown | ArrowUp | Enter | OtherKey

  /** What the palette asks its parent to do: nothing, or run a command (`onCommand(id)`) and close (`onOpenChange(false)`). */
  datatype Action = NoAction | RunAndClose(commandId: string)

  /** The palette's state: the `search` and `selected` state and the `open` prop its effect watches. */
  class Palette {
    const commands: seq<CommandItem>
    var open: bool
    var search: string
    var selected: nat

    /** The highlighted row exists whenever the list is not empty. */
    predicate Valid()
      reads this
    {
      |Filtered(commands, search)| == 0 || selected < |Filtered(commands, search)|
    }

    constructor (open: bool)
      ensures commands == Commands
      ensures this.open == open && search == "" && selected == 0
      ensures Valid()
    {
      commands := Commands;
      this.open := open;
      search := "";
      selected := 0;
    }

    /** Typing: `setSearch`, and the effect on `[search]` resets the cursor when the text changed. */
    method SetSearch(text: string)
      requires Valid()
      modifies this
      ensures search == text && open == old(open)
      ensures text != old(search) ==> selected == 0
      ensures text == old(search) ==> selected == old(selected)
      ensures Valid()
    {
      if text != search {
        selected := 0;
      }
      search := text;
    }

    /** A new `open` prop: when it changed to closed, the effect clears the search and resets the cursor. */
    method SetOpen(nowOpen: bool)
      requires Valid()
      modifies this
      ensures open == nowOpen
      ensures nowOpen != old(open) && !nowOpen ==> search == "" && selected == 0
      ensures nowOpen || nowOpen == old(open) ==> search == old(search) && selected == old(selected)
      ensures Valid()
    {
      if nowOpen != open && !nowOpen {
        search := "";
        selected := 0;
      }
      open := nowOpen;
    }

    /** `handleKeyDown`. The arrow keys need a non-empty list (on an empty one JavaScript computes `% 0`, which is NaN). */
    method KeyDown(key: Key) returns (action: Action)
      requires Valid()
      requires key == ArrowDown || key == ArrowUp ==> |Filtered(commands, search)| > 0
      modifies this
      ensures search == old(search) && open == old(open)
      ensures key == ArrowDown ==> selected == NextIndex(old(selected), |Filtered(commands, search)|) && action == NoAction
      ensures key == ArrowUp ==> selected == PrevIndex(old(selected), |Filtered(commands, search)|) && action == NoAction
      ensures key == Enter ==> selected == old(selected)
      ensures key == Enter && selected < |Filtered(commands, search)| ==> action == RunAndClose(Filtered(commands, search)[selected].id)
      ensures key == Enter && selected >= |Filtered(commands, search)| ==> action == NoAction
      ensures key == OtherKey ==> selected == old(selected) && action == NoAction
      ensures Valid()
    {
      var filtered := Filtered(commands, search);
      action := NoAction;
      match key
      case ArrowDown =>
        selected := NextIndex(selected, |filtered|);
      case ArrowUp =>
        selected := PrevIndex(selected, |filtered|);
      case Enter =>
        if selected < |filtered| {
          action := RunAndClose(filtered[selected].id);
        }
      case OtherKey =>
    }

    /**
     * Clicking a listed row: `handleSelect(cmd.id)`. The row is an index into
     * `Filtered`, whose contents `Filtered`'s own contract characterises.
     */
    method Click(row: nat) returns (action: Action)
      requires row < |Filtered(commands, search)|
      ensures action == RunAndClose(Filtered(commands, search)[row].id)
    {
      action := RunAndClose(Filtered(commands, search)[row].id);
    }
  }

  /** Enter runs a command exactly when some command matches the search. */
  lemma EnterFiresIffMatches(commands: seq<CommandItem>, search: string, selected: nat)
    requires |Filtered(commands, search)| == 0 || selected < |Filtered(commands, search)|
    ensures selected < |Filtered(commands, search)| <==> exists i :: 0 <= i < |commands| && Matches(commands[i], search)
  {
    if exists i :: 0 <= i < |commands| && Matches(commands[i], search) {
      var i :| 0 <= i < |commands| && Matches(commands[i], search);
      assert commands[i] in Filtered(commands, search);
    }
    if selected < |Filtered(commands, search)| {
      var c := Filtered(commands, search)[0];
      assert c in commands && Matches(c, search);
      var i :| 0 <= i < |commands| && commands[i] == c;
    }
  }
}
