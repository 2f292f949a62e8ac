/**
  What the deploy manages: the manifest built from an agent's directory, where each
  entry's content lives in the content-addressed store, and the link that shows it.
 */
module PlatformLayout {
  import opened Wrappers
  import opened SandboxFs

  /** Digests as eight characters; the digest functions themselves are parameters. */
  datatype Hasher = Hasher(file: Content -> string, tree: map<Path, Content> -> string)

  ghost predicate EightChars(h: Hasher) {
    (forall c :: |h.file(c)| == 8) && (forall t :: |h.tree(t)| == 8)
  }

  /** A file entry carries its content; a directory entry the tree found on the host. */
  datatype Payload = OneFile(content: Content) | Directory(tree: map<Path, Content>)

  /** `prefix` is the directory below the store, as components. */
  datatype Entry = Entry(name: string, payload: Payload, hash: string, link: Path, prefix: Path)

  const STORE: Path := ["sandbox", ".platform"]

  function PlatformPath(name: string, hash: string): string {
    name + "." + hash
  }

  function StoreDir(e: Entry): Path {
    STORE + e.prefix
  }

  function Target(e: Entry): Path {
    StoreDir(e) + [PlatformPath(e.name, e.hash)]
  }

  /** Where an upload lands before it gets its address. */
  function Scratch(e: Entry): Path {
    StoreDir(e) + [e.name]
  }

  /** A name that ends in a dot and eight characters. */
  predicate AddressShaped(s: string) {
    |s| >= 9 && s[|s| - 9] == '.'
  }

  predicate WellFormed(e: Entry, h: Hasher) {
    && e.link != [] && e.link[0] != "tmp" && !Comparable(e.link, STORE)
    && !AddressShaped(e.name) && e.name != "skills" && |e.hash| == 8
    && match e.payload
       case OneFile(c) => e.prefix == [] && e.hash == h.file(c)
       case Directory(t) => e.prefix == ["skills"] && e.hash == h.tree(t) && HostTree(t)
  }

  /** A directory walk never finds a file at the top path or below another file. */
  predicate HostTree(t: map<Path, Content>) {
    [] !in t && forall p, q :: p in t && q in t && p <= q ==> p == q
  }

  predicate Apart(e: Entry, f: Entry) {
    !Comparable(e.link, f.link) && (e.prefix == f.prefix ==> e.name != f.name)
  }

  ghost predicate WellPlaced(es: seq<Entry>, h: Hasher) {
    && (forall i :: 0 <= i < |es| ==> WellFormed(es[i], h))
    && (forall i, j :: 0 <= i < |es| && 0 <= j < |es| && i != j ==> Apart(es[i], es[j]))
  }

  /** The agent directory, as far as the manifest looks: what is absent is left out, None cannot be read. */
  datatype AgentDir = AgentDir(
    claudeFiles: map<string, Option<Content>>,
    mcpJson: Option<Option<Content>>,
    skills: map<string, Option<map<Path, Content>>>)

  const CLAUDE: Path := ["sandbox", ".claude"]
  const CLAUDE_FILES: seq<string> :=
    ["settings.json", "reply-schema.json", "cron-schema.json", "system-prompt.md", "bootstrap-schema.json"]
  const SKILLS: seq<string> := ["rightskills", "rightcron", "rightmcp"]

  function ClaudeEntry(name: string, content: Content, h: Hasher): Entry {
    Entry(name, OneFile(content), h.file(content), CLAUDE + [name], [])
  }

  function McpEntry(content: Content, h: Hasher): Entry {
    Entry("mcp.json", OneFile(content), h.file(content), ["sandbox", "mcp.json"], [])
  }

  function SkillEntry(name: string, tree: map<Path, Content>, h: Hasher): Entry {
    Entry(name, Directory(tree), h.tree(tree), CLAUDE + ["skills", name], ["skills"])
  }

  predicate ManagedFile(agent: AgentDir, h: Hasher, e: Entry) {
    && e.name in CLAUDE_FILES && e.name in agent.claudeFiles
    && agent.claudeFiles[e.name] == (if e.payload.OneFile? then Some(e.payload.content) else None)
    && e.payload.OneFile? && e.hash == h.file(e.payload.content)
    && e.link == ["sandbox", ".claude", e.name] && e.prefix == []
  }

  predicate ManagedMcp(agent: AgentDir, h: Hasher, e: Entry) {
    && e.name == "mcp.json" && e.payload.OneFile? && agent.mcpJson == Some(Some(e.payload.content))
    && e.hash == h.file(e.payload.content)
    && e.link == ["sandbox", "mcp.json"] && e.prefix == []
  }

  predicate ManagedSkill(agent: AgentDir, h: Hasher, e: Entry) {
    && e.name in SKILLS && e.name in agent.skills
    && agent.skills[e.name] == (if e.payload.Directory? then Some(e.payload.tree) else None)
    && e.payload.Directory? && e.hash == h.tree(e.payload.tree)
    && e.link == ["sandbox", ".claude", "skills", e.name] && e.prefix == ["skills"]
  }

  /** Exactly the managed files that exist on the host. */
  predicate Managed(agent: AgentDir, h: Hasher, e: Entry) {
    || ManagedFile(agent, h, e)
    || ManagedMcp(agent, h, e)
    || ManagedSkill(agent, h, e)
  }

  /** The entry the program builds for a file is the one managed under that name. */
  lemma FileEntryIs(agent: AgentDir, h: Hasher, name: string, e: Entry)
    requires name in CLAUDE_FILES && name in agent.claudeFiles && agent.claudeFiles[name].Some?
    ensures e.name == name && ManagedFile(agent, h, e) <==> e == ClaudeEntry(name, agent.claudeFiles[name].value, h)
  {
    assert CLAUDE + [name] == ["sandbox", ".claude", name];
  }

  lemma SkillEntryIs(agent: AgentDir, h: Hasher, name: string, e: Entry)
    requires name in SKILLS && name in agent.skills && agent.skills[name].Some?
    ensures e.name == name && ManagedSkill(agent, h, e) <==> e == SkillEntry(name, agent.skills[name].value, h)
  {
    assert CLAUDE + ["skills", name] == ["sandbox", ".claude", "skills", name];
  }

  /** A managed file that is there but cannot be read. */
  predicate UnreadableFile(agent: AgentDir, names: seq<string>) {
    exists name :: name in names && name in agent.claudeFiles && agent.claudeFiles[name].None?
  }

  predicate UnreadableSkill(agent: AgentDir, names: seq<string>) {
    exists name :: name in names && name in agent.skills && agent.skills[name].None?
  }

  predicate Unreadable(agent: AgentDir) {
    || UnreadableFile(agent, CLAUDE_FILES)
    || (agent.mcpJson.Some? && agent.mcpJson.value.None?)
    || UnreadableSkill(agent, SKILLS)
  }

  /** The build fails exactly if some file that is there would have no entry. */
  lemma UnreadableIffNoEntry(agent: AgentDir, h: Hasher)
    ensures Unreadable(agent) <==>
            || (exists name :: name in CLAUDE_FILES && name in agent.claudeFiles && forall e: Entry :: e.name == name ==> !ManagedFile(agent, h, e))
            || (agent.mcpJson.Some? && forall e: Entry :: !ManagedMcp(agent, h, e))
            || (exists name :: name in SKILLS && name in agent.skills && forall e: Entry :: e.name == name ==> !ManagedSkill(agent, h, e))
  {
    forall name | name in CLAUDE_FILES && name in agent.claudeFiles && agent.claudeFiles[name].Some?
      ensures exists e: Entry :: e.name == name && ManagedFile(agent, h, e)
    {
      FileEntryIs(agent, h, name, ClaudeEntry(name, agent.claudeFiles[name].value, h));
    }
    if agent.mcpJson.Some? && agent.mcpJson.value.Some? {
      assert ManagedMcp(agent, h, McpEntry(agent.mcpJson.value.value, h));
    }
    forall name | name in SKILLS && name in agent.skills && agent.skills[name].Some?
      ensures exists e: Entry :: e.name == name && ManagedSkill(agent, h, e)
    {
      SkillEntryIs(agent, h, name, SkillEntry(name, agent.skills[name].value, h));
    }
  }

  ghost predicate HostTrees(agent: AgentDir) {
    forall name :: name in agent.skills && agent.skills[name].Some? ==> HostTree(agent.skills[name].value)
  }

  /** The manifest holds just the managed files, no two in each other's way; it fails exactly if one cannot be read. */
  method BuildManifest(agent: AgentDir, h: Hasher) returns (r: Result<seq<Entry>>)
    requires EightChars(h) && HostTrees(agent)
    ensures r.Err? <==> Unreadable(agent)
    ensures r.Ok? ==> WellPlaced(r.value, h) && forall e :: e in r.value <==> Managed(agent, h, e)
  {
    var files := BuildClaudeFiles(agent, h);
    if files.Err? {
      return files;
    }
    var entries := files.value;
    if agent.mcpJson.Some? {
      if agent.mcpJson.value.None? {
        return Err("read mcp.json");
      }
      entries := entries + [McpEntry(agent.mcpJson.value.value, h)];
    }
    var skills := BuildSkills(agent, h);
    if skills.Err? {
      return skills;
    }
    NamesAreDistinct();
    entries := entries + skills.value;
    ManagedIsWellPlaced(agent, h, entries);
    r := Ok(entries);
  }

  method BuildClaudeFiles(agent: AgentDir, h: Hasher) returns (r: Result<seq<Entry>>)
    ensures r.Err? <==> UnreadableFile(agent, CLAUDE_FILES)
    ensures r.Ok? ==> (forall e :: e in r.value <==> ManagedFile(agent, h, e)) && DistinctNames(r.value)
    ensures r.Ok? ==> forall j :: 0 <= j < |r.value| ==> r.value[j].payload.OneFile? && r.value[j].name in CLAUDE_FILES
  {
    NamesAreDistinct();
    var entries: seq<Entry> := [];
    for i := 0 to |CLAUDE_FILES|
      invariant !UnreadableFile(agent, CLAUDE_FILES[..i])
      invariant forall e :: e in entries <==> ManagedFile(agent, h, e) && e.name in CLAUDE_FILES[..i]
      invariant forall j :: 0 <= j < |entries| ==> entries[j].payload.OneFile? && entries[j].name in CLAUDE_FILES[..i]
      invariant DistinctNames(entries)
    {
      var name := CLAUDE_FILES[i];
      assert CLAUDE_FILES[..i + 1] == CLAUDE_FILES[..i] + [name] && name !in CLAUDE_FILES[..i];
      if name in agent.claudeFiles {
        if agent.claudeFiles[name].None? {
          return Err("read " + name);
        }
        forall e: Entry ensures e.name == name && ManagedFile(agent, h, e) <==> e == ClaudeEntry(name, agent.claudeFiles[name].value, h) {
          FileEntryIs(agent, h, name, e);
        }
        entries := entries + [ClaudeEntry(name, agent.claudeFiles[name].value, h)];
      }
    }
    assert CLAUDE_FILES[..|CLAUDE_FILES|] == CLAUDE_FILES;
    r := Ok(entries);
  }

  method BuildSkills(agent: AgentDir, h: Hasher) returns (r: Result<seq<Entry>>)
    ensures r.Err? <==> UnreadableSkill(agent, SKILLS)
    ensures r.Ok? ==> (forall e :: e in r.value <==> ManagedSkill(agent, h, e)) && DistinctNames(r.value)
    ensures r.Ok? ==> forall j :: 0 <= j < |r.value| ==> r.value[j].payload.Directory?
  {
    NamesAreDistinct();
    var entries: seq<Entry> := [];
    for i := 0 to |SKILLS|
      invariant !UnreadableSkill(agent, SKILLS[..i])
      invariant forall e :: e in entries <==> ManagedSkill(agent, h, e) && e.name in SKILLS[..i]
      invariant forall j :: 0 <= j < |entries| ==> entries[j].payload.Directory? && entries[j].name in SKILLS[..i]
      invariant DistinctNames(entries)
    {
      var name := SKILLS[i];
      assert SKILLS[..i + 1] == SKILLS[..i] + [name] && name !in SKILLS[..i];
      if name in agent.skills {
        if agent.skills[name].None? {
          return Err("walkdir error in " + name);
        }
        forall e: Entry ensures e.name == name && ManagedSkill(agent, h, e) <==> e == SkillEntry(name, agent.skills[name].value, h) {
          SkillEntryIs(agent, h, name, e);
        }
        entries := entries + [SkillEntry(name, agent.skills[name].value, h)];
      }
    }
    assert SKILLS[..|SKILLS|] == SKILLS;
    r := Ok(entries);
  }

  predicate DistinctNames(es: seq<Entry>) {
    forall i, j :: 0 <= i < j < |es| ==> es[i].name != es[j].name || es[i].payload.OneFile? != es[j].payload.OneFile?
  }

  lemma NamesAreDistinct()
    ensures forall i, j :: 0 <= i < j < |CLAUDE_FILES| ==> CLAUDE_FILES[i] != CLAUDE_FILES[j]
    ensures forall i, j :: 0 <= i < j < |SKILLS| ==> SKILLS[i] != SKILLS[j]
    ensures "mcp.json" !in CLAUDE_FILES
  {
  }

  lemma ManagedIsWellFormed(agent: AgentDir, h: Hasher, e: Entry)
    requires EightChars(h) && HostTrees(agent)
    requires Managed(agent, h, e)
    ensures WellFormed(e, h)
  {
    assert CLAUDE != STORE by { assert ".claude"[1] != ".platform"[1]; assert CLAUDE[1] != STORE[1]; }
    assert e.link[0] == "sandbox" && "sandbox"[0] != "tmp"[0];
    assert e.link[1] != STORE[1] by {
      assert STORE[1][0] == '.' && STORE[1][1] == 'p' && ".claude"[1] == 'c' && "mcp.json"[0] == 'm';
    }
    assert !AddressShaped(e.name) && e.name != "skills" by {
      ShortOrUnshaped();
    }
  }

  lemma ShortOrUnshaped()
    ensures forall name :: name in CLAUDE_FILES || name in SKILLS || name == "mcp.json" ==> !AddressShaped(name) && name != "skills"
  {
  }

  /** Links of two managed entries never lie one below the other. */
  lemma LinksApart(agent: AgentDir, h: Hasher, e: Entry, f: Entry)
    requires Managed(agent, h, e) && Managed(agent, h, f)
    requires e.name != f.name || e.payload.OneFile? != f.payload.OneFile?
    ensures Apart(e, f)
  {
    ShortOrUnshaped();
    NamesAreDistinct();
    assert ".claude"[0] != "mcp.json"[0];
    assert e.link[|e.link| - 1] == e.name && f.link[|f.link| - 1] == f.name;
  }

  lemma ManagedIsWellPlaced(agent: AgentDir, h: Hasher, entries: seq<Entry>)
    requires EightChars(h) && HostTrees(agent)
    requires forall j :: 0 <= j < |entries| ==> Managed(agent, h, entries[j])
    requires DistinctNames(entries)
    ensures WellPlaced(entries, h)
  {
    forall i | 0 <= i < |entries| ensures WellFormed(entries[i], h) {
      ManagedIsWellFormed(agent, h, entries[i]);
    }
    forall i, j | 0 <= i < |entries| && 0 <= j < |entries| && i != j ensures Apart(entries[i], entries[j]) {
      LinksApart(agent, h, entries[i], entries[j]);
    }
  }

  predicate NoSlash(s: string) {
    forall i :: 0 <= i < |s| ==> s[i] != '/'
  }

  /** The managed names hold no separator, and none is another's name up to a dot. */
  predicate CleanNames(es: seq<Entry>) {
    && (forall i :: 0 <= i < |es| ==> NoSlash(es[i].name) && NoSlash(es[i].hash))
    && (forall i, j :: 0 <= i < |es| && 0 <= j < |es| ==> !(es[i].name + "." <= es[j].name))
  }

  predicate ManagedName(name: string) {
    name in CLAUDE_FILES || name == "mcp.json" || name in SKILLS
  }

  /** The managed files and skills, by name. */
  lemma ManagedNamesAre(name: string)
    ensures ManagedName(name) <==>
            name in ["settings.json", "reply-schema.json", "cron-schema.json", "system-prompt.md", "bootstrap-schema.json",
                     "mcp.json", "rightskills", "rightcron", "rightmcp"]
  {
  }

  lemma ManagedNameIsClean(name: string)
    requires ManagedName(name)
    ensures NoSlash(name)
  {
  }

  /** Where a managed name has its dot, and how it begins. */
  lemma DotsAndLengths(name: string)
    requires ManagedName(name)
    ensures |name| >= 8
    ensures forall i :: 0 <= i < |name| && name[i] == '.' ==>
              || (i == 8 && name[0] == 's')
              || (i == 12 && name[0] == 'r')
              || (i == 11 && name[0] == 'c')
              || (i == 13 && name[1] == 'y')
              || (i == 16 && name[0] == 'b')
              || i == 3
    ensures |name| == 8 ==> name[0] != 's'
    ensures |name| == 11 ==> name[0] != 'c'
    ensures |name| == 13 ==> name[1] != 'y'
    ensures |name| == 16 ==> name[0] != 'b'
    ensures |name| != 12 && |name| != 3
  {
  }

  lemma ManagedNamesAreClean(agent: AgentDir, h: Hasher, es: seq<Entry>)
    requires forall i :: 0 <= i < |es| ==> Managed(agent, h, es[i]) && NoSlash(es[i].hash)
    ensures CleanNames(es)
  {
    forall i | 0 <= i < |es| ensures NoSlash(es[i].name) {
      ManagedNameIsClean(es[i].name);
    }
    forall i, j | 0 <= i < |es| && 0 <= j < |es| ensures !(es[i].name + "." <= es[j].name) {
      var x, y := es[i].name, es[j].name;
      DotsAndLengths(x);
      DotsAndLengths(y);
      assert (x + ".")[|x|] == '.';
    }
  }
}
