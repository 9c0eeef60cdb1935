/**
 * The command palette: a fixed list of seven commands, a case-insensitive
 * substring filter over their labels, and the open/closed state driven by
 * the keyboard, by a click outside the list and by running a command.
 */
module CommandPalette {
  import Text

  /** What a command does besides closing the palette. */
  datatype Effect =
    | OpenVault
    | OpenBioMetrics
    | OpenMemeForge
    | OpenStickerHub
    | ScrollToTop
    | ScrollToContact
    | OpenInNewTab(url: string)

  datatype Command = Command(id: string, title: string, shortcut: string, effect: Effect)

  const Commands: seq<Command> := [
    Command("vault", "Open The Vault", "\U{21B5}", OpenVault),
    Command("bio", "System Diagnostics (Bio-Metrics)", "B", OpenBioMetrics),
    Command("meme", "Initialize Meme Forge", "M", OpenMemeForge),
    Command("sticker", "Enter Sticker Hub", "S", OpenStickerHub),
    Command("home", "Go to Home", "H", ScrollToTop),
    Command("contact", "Contact Me", "C", ScrollToContact),
    Command("source", "View Source Code", "S", OpenInNewTab("https://github.com/isparshp"))
  ]

  /** The lower-cased label (`title`) contains the lower-cased query. */
  predicate Matches(c: Command, query: string)
  {
    Text.Contains(Text.ToLower(c.title), Text.ToLower(query))
  }

  /** The commands that match the query, in their original order. */
  function Filter(cs: seq<Command>, query: string): (r: seq<Command>)
    ensures |r| <= |cs|
    decreases |cs|
  {
    if cs == [] then []
    else (if Matches(cs[0], query) then [cs[0]] else []) + Filter(cs[1..], query)
  }

  /** `a` is `b` with some elements left out and the rest in the same order. */
  predicate IsSubsequence(a: seq<Command>, b: seq<Command>)
    decreases |b|
  {
    a == [] || (b != [] && ((a[0] == b[0] && IsSubsequence(a[1..], b[1..])) || IsSubsequence(a, b[1..])))
  }

  /** A command is listed exactly when it is one of the commands and matches the query. */
  lemma {:induction false} FilterMembership(cs: seq<Command>, query: string, c: Command)
    ensures c in Filter(cs, query) <==> c in cs && Matches(c, query)
    decreases |cs|
  {
    if cs != [] {
      FilterMembership(cs[1..], query, c);
      assert cs == [cs[0]] + cs[1..];
    }
  }

  /** `FilterMembership` for every command at once. */
  lemma FilterMembershipAll(cs: seq<Command>, query: string)
    ensures forall c :: c in Filter(cs, query) <==> c in cs && Matches(c, query)
  {
    forall c ensures c in Filter(cs, query) <==> c in cs && Matches(c, query) {
      FilterMembership(cs, query, c);
    }
  }

  /** What the palette lists while open, for any list of commands. */
  lemma ListedFacts(cs: seq<Command>, query: string)
    ensures forall c :: c in Filter(cs, query) <==> c in cs && Matches(c, query)
    ensures IsSubsequence(Filter(cs, query), cs)
  {
    FilterMembershipAll(cs, query);
    FilterIsSubsequence(cs, query);
  }

  /** The filter only leaves commands out; it never reorders or repeats them. */
  lemma {:induction false} FilterIsSubsequence(cs: seq<Command>, query: string)
    ensures IsSubsequence(Filter(cs, query), cs)
    decreases |cs|
  {
    if cs != [] {
      FilterIsSubsequence(cs[1..], query);
      var rest := Filter(cs[1..], query);
      if Matches(cs[0], query) {
        assert Filter(cs, query) == [cs[0]] + rest;
        assert ([cs[0]] + rest)[1..] == rest;
      } else {
        assert Filter(cs, query) == rest;
      }
    }
  }

  /** The empty query lists every command. */
  lemma {:induction false} FilterEmptyQuery(cs: seq<Command>)
    ensures Filter(cs, "") == cs
    decreases |cs|
  {
    if cs != [] {
      Text.ContainsEmpty(Text.ToLower(cs[0].title));
      assert Text.ToLower("") == "";
      FilterEmptyQuery(cs[1..]);
    }
  }

  /** With the empty query the palette lists all seven commands. */
  lemma AllCommandsForEmptyQuery()
    ensures Filter(Commands, "") == Commands && |Commands| == 7
  {
    FilterEmptyQuery(Commands);
  }

  /** Queries that lower-case alike list the same commands. */
  lemma {:induction false} FilterIgnoresCase(cs: seq<Command>, q1: string, q2: string)
    requires Text.ToLower(q1) == Text.ToLower(q2)
    ensures Filter(cs, q1) == Filter(cs, q2)
    decreases |cs|
  {
    if cs != [] {
      FilterIgnoresCase(cs[1..], q1, q2);
    }
  }

  /** A query lists the same commands as its lower-cased form. */
  lemma FilterLowerQuery(cs: seq<Command>, query: string)
    ensures Filter(cs, Text.ToLower(query)) == Filter(cs, query)
  {
    Text.ToLowerIdempotent(query);
    FilterIgnoresCase(cs, Text.ToLower(query), query);
  }

  /** Filtering the listed commands again with the same query changes nothing. */
  lemma {:induction false} FilterIdempotent(cs: seq<Command>, query: string)
    ensures Filter(Filter(cs, query), query) == Filter(cs, query)
    decreases |cs|
  {
    if cs != [] {
      FilterIdempotent(cs[1..], query);
      var rest := Filter(cs[1..], query);
      if Matches(cs[0], query) {
        var listed := [cs[0]] + rest;
        assert Filter(cs, query) == listed;
        assert listed[0] == cs[0] && listed[1..] == rest;
        assert Filter(listed, query) == [cs[0]] + Filter(rest, query);
      } else {
        assert Filter(cs, query) == rest;
      }
    }
  }

  /** The command ids are pairwise distinct, although two commands share the shortcut `S`. */
  lemma CommandIdsDistinct()
    ensures forall i, j :: 0 <= i < j < |Commands| ==> Commands[i].id != Commands[j].id
    ensures Commands[3].shortcut == Commands[6].shortcut == "S"
  {
  }

  datatype KeyEvent = KeyEvent(key: string, metaKey: bool, ctrlKey: bool)

  /** Cmd+K or Ctrl+K, with a lower-case `k`. */
  predicate IsToggle(e: KeyEvent)
  {
    (e.metaKey || e.ctrlKey) && e.key == "k"
  }

  /** The open flag after a key press: the toggle flips it, Escape clears it. */
  function NextOpen(isOpen: bool, e: KeyEvent): bool
  {
    var toggled := if IsToggle(e) then !isOpen else isOpen;
    if e.key == "Escape" then false else toggled
  }

  /** Pressing the toggle twice restores the open flag. */
  lemma ToggleTwice(isOpen: bool, e: KeyEvent)
    requires IsToggle(e)
    ensures NextOpen(isOpen, e) == !isOpen
    ensures NextOpen(NextOpen(isOpen, e), e) == isOpen
  {
  }

  /** Escape closes the palette, with or without modifier keys. */
  lemma EscapeCloses(isOpen: bool, e: KeyEvent)
    requires e.key == "Escape"
    ensures !NextOpen(isOpen, e)
  {
  }

  /** Any other key, including an upper-case `K`, leaves the open flag alone. */
  lemma OtherKeysIgnored(isOpen: bool, e: KeyEvent)
    requires !IsToggle(e) && e.key != "Escape"
    ensures NextOpen(isOpen, e) == isOpen
  {
  }

  class Palette {
    var isOpen: bool
    var query: string
    /** The command list the component builds; its actions close over the overlay callbacks. */
    var commands: seq<Command>

    constructor ()
      ensures !isOpen && query == "" && commands == Commands
    {
      isOpen := false;
      query := "";
      commands := Commands;
    }

    /** The commands on screen: none while closed, else those matching the query. */
    function Listed(): (r: seq<Command>)
      reads this
      ensures !isOpen ==> r == []
      ensures isOpen ==> forall c :: c in r <==> c in commands && Matches(c, query)
      ensures IsSubsequence(r, commands)
    {
      if isOpen then
        ListedFacts(commands, query);
        Filter(commands, query)
      else []
    }

    /** The window's key handler; it suppresses the browser's default for the toggle. */
    method HandleKeyDown(e: KeyEvent) returns (preventDefault: bool)
      modifies this`isOpen
      ensures isOpen == NextOpen(old(isOpen), e)
      ensures preventDefault == IsToggle(e)
    {
      preventDefault := false;
      if (e.metaKey || e.ctrlKey) && e.key == "k" {
        preventDefault := true;
        isOpen := !isOpen;
      }
      if e.key == "Escape" {
        isOpen := false;
      }
    }

    /** Typing in the input box. */
    method SetQuery(q: string)
      modifies this`query
      ensures query == q
      ensures isOpen ==> Listed() == Filter(commands, q)
    {
      query := q;
    }

    /** A click on the backdrop outside the list closes the palette. */
    method ClickOverlay()
      modifies this`isOpen
      ensures !isOpen && Listed() == []
    {
      isOpen := false;
    }

    /** Running a command performs its effect and closes the palette; the query is kept. */
    method RunCommand(c: Command) returns (effect: Effect)
      modifies this`isOpen
      ensures !isOpen && Listed() == [] && effect == c.effect
    {
      effect := c.effect;
      isOpen := false;
    }
  }
}
