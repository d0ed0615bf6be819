/** What the options and lists of the client come to: decision lists, -b and -B, prerequisite actions, prompts. */
module ClientChoices {
  import opened Common
  import opened Ordering
  import opened ClientRun

  // ---------- decision lists ----------

  predicate Listed(glob: (string, string) -> bool, list: seq<(string, string)>, e: Entry)
  {
    exists i | 0 <= i < |list| :: list[i] == (e.tag, e.name) || (glob(e.tag, list[i].0) && glob(e.name, list[i].1))
  }

  /** A whitelist suppresses what it does not list, a blacklist what it does; a configuration file has neither. */
  lemma SuppressedExactly(glob: (string, string) -> bool, setup: Setup, e: Entry)
    ensures setup.fromFile || setup.decision.NoList? ==> !Suppressed(glob, setup, e)
    ensures !setup.fromFile && setup.decision.Whitelist? ==>
      (Suppressed(glob, setup, e) <==> !Listed(glob, setup.decisionList, e))
    ensures !setup.fromFile && setup.decision.Blacklist? ==>
      (Suppressed(glob, setup, e) <==> Listed(glob, setup.decisionList, e))
  {
    var list := setup.decisionList;
    assert forall i | 0 <= i < |list| :: MatchesEntry(glob, list[i], e) <==>
      list[i] == (e.tag, e.name) || (glob(e.tag, list[i].0) && glob(e.name, list[i].1));
  }

  /** One more specification allows only more on a whitelist and only less on a blacklist. */
  lemma LongerLists(glob: (string, string) -> bool, setup: Setup, spec: (string, string), e: Entry)
    requires !setup.fromFile
    ensures var longer := setup.(decisionList := setup.decisionList + [spec]);
      && (setup.decision.Whitelist? && Suppressed(glob, longer, e) ==> Suppressed(glob, setup, e))
      && (setup.decision.Blacklist? && Suppressed(glob, setup, e) ==> Suppressed(glob, longer, e))
      && (spec == (e.tag, e.name) ==> (Suppressed(glob, longer, e) <==> setup.decision.Blacklist?))
  {
    var list := setup.decisionList + [spec];
    assert forall i | 0 <= i < |setup.decisionList| :: list[i] == setup.decisionList[i];
    assert list[|setup.decisionList|] == spec;
    SuppressedExactly(glob, setup, e);
    SuppressedExactly(glob, setup.(decisionList := list), e);
    hide Suppressed;
    if Listed(glob, setup.decisionList, e) {
      var i :| 0 <= i < |setup.decisionList| && (setup.decisionList[i] == (e.tag, e.name) ||
        (glob(e.tag, setup.decisionList[i].0) && glob(e.name, setup.decisionList[i].1)));
      assert list[i] == setup.decisionList[i];
    }
  }

  // ---------- bundles ----------

  /** -b takes the named bundles only, -B leaves the named ones out; neither reaches what it does not name. */
  lemma SelectedExactly(setup: Setup, config: seq<Struct>, b: Struct)
    ensures b in SelectedBundles(setup, config) <==>
      && b in config
      && (setup.onlyBundles != [] ==> exists name :: name in setup.onlyBundles && b.name == Some(name))
      && (forall name :: name in setup.exceptBundles ==> b.name != Some(name))
  {
    if b.name.Some? { assert b.name == Some(b.name.value); }
  }

  /** The files of a structure are looked at early unless it has no name, or -B names it and -b does not. */
  lemma EarlyExactly(setup: Setup, p: Struct)
    ensures EarlyParent(setup, p) <==> exists name :: p.name == Some(name) && LooksEarly(setup, name)
  {
    if p.name.Some? { assert p.name == Some(p.name.value); }
  }

  predicate LooksEarly(setup: Setup, name: string)
  {
    |name| > 0 && (name in setup.onlyBundles || forall except :: except in setup.exceptBundles ==> except != name)
  }

  /** What a bundle wants run first: its actions for that time, the conditional ones only if it is touched. */
  lemma PrerequisitesAre(b: Struct, whitelist: seq<Entry>, modified: seq<Entry>, a: Entry)
    ensures a in PreActions(b, whitelist, modified) <==>
      && a in b.entries && a.tag == "Action" && a.timing in ["pre", "both"]
      && (a.when == "always" ||
          (b.tag == "Bundle" && exists item :: item in b.entries && (item in whitelist || item in modified)))
  {
    if item :| item in b.entries && (item in whitelist || item in modified) { assert item in b.entries; }
  }

  /** Structures outside bundles hear at the end that they were not updated, each once from every tool. */
  lemma IndependentsHear(setup: Setup, config: seq<Struct>, tools: seq<Tool>, before: multiset<Note>,
                         after: multiset<Note>, mb: seq<Struct>, t: Tool, b: Struct)
    requires Told(before, after, tools, Eligible(setup, mb), NotModified(setup, config, mb) + Independents(config))
    requires t in tools && b in config && b.tag == "Independent"
    ensures after[NotUpdated(t, b)] == before[NotUpdated(t, b)] + 1
  {
  }

  /** Over Install a bundle hears at all exactly if -b allows it, whatever -B says. */
  lemma HeardExactly(setup: Setup, config: seq<Struct>, tools: seq<Tool>, before: multiset<Note>,
                     after: multiset<Note>, mb: seq<Struct>, t: Tool, b: Struct)
    requires Told(before, after, tools, Eligible(setup, mb), NotModified(setup, config, mb) + Independents(config))
    requires t in tools && b in config && b.tag == "Bundle"
    ensures after[Updated(t, b)] + after[NotUpdated(t, b)] == before[Updated(t, b)] + before[NotUpdated(t, b)] +
      if setup.onlyBundles == [] || exists name :: name in setup.onlyBundles && b.name == Some(name) then 1 else 0
  {
    if b.name.Some? { assert b.name == Some(b.name.value); }
    OneNotePerToolAndBundle(setup, config, tools, before, after, mb, t, b);
  }

  // ---------- prompts and removal ----------

  function PromptKey(e: Entry): string { e.tag + ":" + e.name }

  /** Prompts come in the order of tag and name. */
  lemma PromptsAscend(entries: seq<Entry>)
    ensures var p := PromptOrder(entries);
      forall i, j :: 0 <= i < j < |p| ==> LexLe(PromptKey(p[i]), PromptKey(p[j]))
  {
    var p := Order(PromptKeys(entries), LexLe);
    LexPreorder(PromptKeys(entries));
    OrderSorts(PromptKeys(entries), LexLe);
    KeysAre(entries);
    hide Order, PromptKeys;
    PermCovers(p, entries);
  }

  lemma {:induction false} KeysAre(entries: seq<Entry>)
    ensures forall i :: 0 <= i < |entries| ==> PromptKeys(entries)[i] == PromptKey(entries[i])
  {
    if entries != [] { KeysAre(entries[..|entries| - 1]); }
  }

  /** Only what the mode names is to be removed, and all of that. */
  lemma RemovedExactly(mode: RemoveMode, extra: seq<Entry>, e: Entry)
    ensures e in ToRemove(mode, extra) <==>
      && e in extra && !mode.NoRemoval?
      && (mode.Services? ==> e.tag == "Service") && (mode.Packages? ==> e.tag == "Package")
      && (mode.Users? ==> e.tag in ["POSIXUser", "POSIXGroup"]) && (mode.Conf? ==> e.tag == "Conf")
  {
  }
}
