/**
  The configuration synchroniser: internal/state/config.go. A file's contents are text; sections and lines are
  recognised the way the source recognises them, which is not the whole of TOML.
*/
module Config {
  import Text

  const AUTH_LINE := "cli_auth_credentials_store = \"file\""
  const OAUTH_LINE := "mcp_oauth_credentials_store = \"file\""

  function CredentialLines(): string {
    AUTH_LINE + "\n" + OAUTH_LINE
  }

  // ---- lines and sections ----

  function NewlineAt(text: string): (i: nat)
    ensures i <= |text|
    ensures i < |text| ==> text[i] == '\n'
    ensures forall j :: 0 <= j < i ==> text[j] != '\n'
  {
    if text == "" || text[0] == '\n' then 0 else 1 + NewlineAt(text[1..])
  }

  lemma NewlineAtIs(text: string, i: nat)
    requires i <= |text| && (i < |text| ==> text[i] == '\n') && forall j :: 0 <= j < i ==> text[j] != '\n'
    ensures NewlineAt(text) == i
  {
  }

  /** strings.HasPrefix(trimmed, "[") && strings.HasSuffix(trimmed, "]") */
  predicate Bracketed(trimmed: string)
    ensures Bracketed(trimmed) ==> |trimmed| >= 2
  {
    trimmed != "" && trimmed[0] == '[' && trimmed[|trimmed| - 1] == ']'
  }

  predicate IsHeader(line: string) {
    Bracketed(Text.TrimSpace(line))
  }

  /** The section the text is in once line has been read. */
  function SectionAfter(section: string, line: string): string {
    var trimmed := Text.TrimSpace(line);
    if IsHeader(line) then Text.TrimSpace(trimmed[1..|trimmed| - 1]) else section
  }

  predicate IsProjectSection(section: string) {
    section == "projects" || Text.HasPrefix(section, "projects.")
  }

  type Test = (string, string) -> bool

  predicate InProject(section: string, line: string) {
    IsProjectSection(section)
  }

  predicate Shared(section: string, line: string) {
    !IsProjectSection(section)
  }

  predicate SetsCredential(section: string, line: string) {
    var trimmed := Text.TrimSpace(line);
    section == "" && (Text.HasPrefix(trimmed, "cli_auth_credentials_store =") ||
                      Text.HasPrefix(trimmed, "mcp_oauth_credentials_store ="))
  }

  predicate Harmless(section: string, line: string) {
    !SetsCredential(section, line)
  }

  /** The lines of text that pass the test, each ended by a newline; section is where the text starts. */
  function Keep(test: Test, section: string, text: string): string
    decreases |text|
  {
    var i := NewlineAt(text);
    var line := text[..i];
    var now := SectionAfter(section, line);
    (if test(now, line) then line + "\n" else "") + (if i == |text| then "" else Keep(test, now, text[i + 1..]))
  }

  function KeepLines(test: Test, section: string, lines: seq<string>): string
    decreases |lines|
  {
    if lines == [] then ""
    else
      var now := SectionAfter(section, lines[0]);
      (if test(now, lines[0]) then lines[0] + "\n" else "") + KeepLines(test, now, lines[1..])
  }

  lemma {:induction false} KeepIsByLines(test: Test, section: string, text: string)
    ensures Keep(test, section, text) == KeepLines(test, section, Text.Split(text, '\n'))
    decreases |text|
  {
    NewlineAtIs(text, Text.IndexOf(text, '\n'));
    hide NewlineAt, SectionAfter;
    var i := NewlineAt(text);
    var now := SectionAfter(section, text[..i]);
    if i == |text| {
      assert text[..i] == text;
      assert [text][1..] == [];
    } else {
      KeepIsByLines(test, now, text[i + 1..]);
      assert Text.Split(text, '\n')[1..] == Text.Split(text[i + 1..], '\n');
    }
  }

  lemma KeepOneMore(test: Test, section: string, lines: seq<string>, k: nat)
    requires k < |lines|
    ensures var trimmed := Text.TrimSpace(lines[k]);
            var now := if Bracketed(trimmed) then Text.TrimSpace(trimmed[1..|trimmed| - 1]) else section;
            KeepLines(test, section, lines[k..]) ==
            (if test(now, lines[k]) then lines[k] + "\n" else "") + KeepLines(test, now, lines[k + 1..])
  {
    assert lines[k..][1..] == lines[k + 1..];
  }

  /** filterConfig and removeTopLevelCredentialSettings are this loop with different tests. */
  method FilterLines(contents: string, test: Test) returns (kept: string)
    ensures kept == Keep(test, "", contents)
  {
    hide *;
    kept := "";
    var section := "";
    var lines := Text.Split(contents, '\n');
    KeepIsByLines(test, "", contents);
    assert lines[0..] == lines;
    for k := 0 to |lines|
      invariant kept + KeepLines(test, section, lines[k..]) == Keep(test, "", contents)
    {
      var line := lines[k];
      KeepOneMore(test, section, lines, k);
      var trimmed := Text.TrimSpace(line);
      if Bracketed(trimmed) {
        section := Text.TrimSpace(trimmed[1..|trimmed| - 1]);
      }
      if test(section, line) {
        kept := kept + line + "\n";
      }
    }
    NothingLeft(test, section, lines);
  }

  lemma NothingLeft(test: Test, section: string, lines: seq<string>)
    ensures KeepLines(test, section, lines[|lines|..]) == ""
  {
  }

  // ---- one synchronisation ----

  function Managed(primary: string): string {
    Text.TrimSpace(Keep(Harmless, "", Keep(Shared, "", primary)))
  }

  function Projects(config: string): string {
    Text.TrimSpace(Keep(InProject, "", config))
  }

  function Part(text: string): string {
    if text == "" then "" else "\n\n" + text
  }

  function Synced(primary: string, isolated: string): string {
    CredentialLines() + Part(Managed(primary)) + Part(Projects(isolated)) + "\n"
  }

  /** The isolated home's config.toml; a missing file reads as empty. writes counts the replacements of the file. */
  class IsolatedHome {
    var config: string
    var writes: nat

    constructor (config: string)
      ensures this.config == config && writes == 0
    {
      this.config := config;
      writes := 0;
    }

    /** syncIsolatedConfig. writable says whether replacing the file succeeds. */
    method Sync(primary: string, writable: bool) returns (ok: bool)
      modifies this
      ensures ok <==> writable || old(config) == Synced(primary, old(config))
      ensures config == if ok then Synced(primary, old(config)) else old(config)
      ensures writes == old(writes) + (if config != old(config) then 1 else 0)
    {
      hide Keep, Text.TrimSpace, CredentialLines;
      var shared := FilterLines(primary, Shared);
      var managed := FilterLines(shared, Harmless);
      managed := Text.TrimSpace(managed);
      var projects := FilterLines(config, InProject);
      projects := Text.TrimSpace(projects);
      var contents := CredentialLines();
      if managed != "" {
        contents := contents + "\n\n" + managed;
      }
      if projects != "" {
        contents := contents + "\n\n" + projects;
      }
      contents := contents + "\n";
      assert contents == Synced(primary, config);
      if contents == config {
        return true;
      }
      if !writable {
        return false;
      }
      config := contents;
      writes := writes + 1;
      return true;
    }
  }

  // ---- every line passes ----

  predicate All(test: Test, section: string, text: string)
    decreases |text|
  {
    var i := NewlineAt(text);
    var now := SectionAfter(section, text[..i]);
    test(now, text[..i]) && (i < |text| ==> All(test, now, text[i + 1..]))
  }

  function End(section: string, text: string): string
    decreases |text|
  {
    var i := NewlineAt(text);
    var now := SectionAfter(section, text[..i]);
    if i == |text| then now else End(now, text[i + 1..])
  }

  /** The recursions, one line at a time. */
  lemma Unfold(test: Test, section: string, line: string)
    requires NewlineAt(line) == |line|
    ensures All(test, section, line) <==> test(SectionAfter(section, line), line)
    ensures Keep(test, section, line) == if test(SectionAfter(section, line), line) then line + "\n" else ""
    ensures End(section, line) == SectionAfter(section, line)
  {
    assert line[..|line|] == line;
  }

  lemma UnfoldFirst(test: Test, section: string, line: string, rest: string)
    requires NewlineAt(line) == |line|
    ensures var now, text := SectionAfter(section, line), line + "\n" + rest;
            && (All(test, section, text) <==> test(now, line) && All(test, now, rest))
            && Keep(test, section, text) == (if test(now, line) then line + "\n" else "") + Keep(test, now, rest)
            && End(section, text) == End(now, rest)
  {
    hide NewlineAt, SectionAfter;
    var text := line + "\n" + rest;
    NewlineAtIs(text, |line|);
    assert text[..|line|] == line;
    assert text[|line| + 1..] == rest;
  }

  /** A text is one line, or a line, a newline and the rest. */
  lemma FirstLineOf(text: string) returns (line: string, rest: string)
    requires NewlineAt(text) < |text|
    ensures NewlineAt(line) == |line| && text == line + "\n" + rest && |rest| < |text|
  {
    hide NewlineAt;
    line, rest := text[..NewlineAt(text)], text[NewlineAt(text) + 1..];
    NewlineAtIs(line, |line|);
  }

  lemma {:induction false} Joined(test: Test, section: string, a: string, b: string)
    ensures All(test, section, a + "\n" + b) <==> All(test, section, a) && All(test, End(section, a), b)
    ensures Keep(test, section, a + "\n" + b) == Keep(test, section, a) + Keep(test, End(section, a), b)
    ensures End(section, a + "\n" + b) == End(End(section, a), b)
    decreases |a|
  {
    hide NewlineAt, SectionAfter, All, Keep, End;
    if NewlineAt(a) == |a| {
      Unfold(test, section, a);
      UnfoldFirst(test, section, a, b);
    } else {
      var line, rest := FirstLineOf(a);
      UnfoldFirst(test, section, line, rest);
      assert a + "\n" + b == line + "\n" + (rest + "\n" + b);
      UnfoldFirst(test, section, line, rest + "\n" + b);
      Joined(test, SectionAfter(section, line), rest, b);
    }
  }

  lemma {:induction false} AllKept(test: Test, section: string, text: string)
    requires All(test, section, text)
    ensures Keep(test, section, text) == text + "\n"
    decreases |text|
  {
    hide NewlineAt, SectionAfter, All, Keep, End;
    if NewlineAt(text) == |text| {
      Unfold(test, section, text);
    } else {
      var line, rest := FirstLineOf(text);
      UnfoldFirst(test, section, line, rest);
      AllKept(test, SectionAfter(section, line), rest);
    }
  }

  lemma {:induction false} NoneKept(section: string, text: string)
    requires All(Shared, section, text)
    ensures Keep(InProject, section, text) == "" && !IsProjectSection(End(section, text))
    decreases |text|
  {
    hide NewlineAt, SectionAfter, All, Keep, End;
    if NewlineAt(text) == |text| {
      Unfold(Shared, section, text);
      Unfold(InProject, section, text);
    } else {
      var line, rest := FirstLineOf(text);
      UnfoldFirst(Shared, section, line, rest);
      UnfoldFirst(InProject, section, line, rest);
      NoneKept(SectionAfter(section, line), rest);
    }
  }

  // ---- what is kept, read again ----

  /** A test on the section alone. */
  ghost predicate OnSections(test: Test) {
    forall section, line, other :: test(section, line) == test(section, other)
  }

  lemma {:induction false} AllReachesEnd(test: Test, section: string, text: string)
    requires OnSections(test) && All(test, section, text)
    ensures test(End(section, text), "")
    decreases |text|
  {
    hide NewlineAt, SectionAfter, All, Keep, End;
    if NewlineAt(text) == |text| {
      Unfold(test, section, text);
    } else {
      var line, rest := FirstLineOf(text);
      UnfoldFirst(test, section, line, rest);
      AllReachesEnd(test, SectionAfter(section, line), rest);
    }
  }

  lemma NotAHeader(section: string, line: string)
    requires !IsHeader(line)
    ensures SectionAfter(section, line) == section
  {
  }

  lemma AHeader(section: string, other: string, line: string)
    requires IsHeader(line)
    ensures SectionAfter(section, line) == SectionAfter(other, line)
  {
  }

  /**
    Lines kept for their section still stand in such a section when only they are read, from any section where
    something must be: either from one of those sections, or, when the first of them opens one, from anywhere.
  */
  lemma {:induction false} KeptStandAlone(test: Test, section: string, from: string, text: string)
    requires OnSections(test) && (test(section, "") ==> test(from, ""))
    ensures var kept := Keep(test, section, text); kept == "" || All(test, from, kept)
    decreases |text|
  {
    hide NewlineAt, SectionAfter, All, Keep, End, IsHeader;
    var line, rest := text, "";
    if NewlineAt(text) < |text| {
      line, rest := FirstLineOf(text);
      UnfoldFirst(test, section, line, rest);
    } else {
      Unfold(test, section, line);
    }
    var now, then' := SectionAfter(section, line), SectionAfter(from, line);
    if IsHeader(line) {
      AHeader(section, from, line);
    } else {
      NotAHeader(section, line);
      NotAHeader(from, line);
    }
    assert test(now, line) == test(now, "") && test(then', line) == test(then', "");
    if test(now, line) {
      var later := if NewlineAt(text) < |text| then Keep(test, now, rest) else "";
      UnfoldFirst(test, from, line, later);
      assert Keep(test, section, text) == line + "\n" + later;
      if later == "" {
        EmptyLine(test, then');
      }
      if NewlineAt(text) < |text| {
        KeptStandAlone(test, now, then', rest);
      }
    } else if NewlineAt(text) < |text| {
      KeptStandAlone(test, now, from, rest);
      assert Keep(test, section, text) == Keep(test, now, rest);
    }
  }

  lemma EmptyLine(test: Test, section: string)
    ensures All(test, section, "") <==> test(section, "")
    ensures End(section, "") == section
    ensures Keep(test, section, "") == if test(section, "") then "\n" else ""
  {
    assert Text.TrimSpace("") == "";
    Unfold(test, section, "");
  }

  lemma CredentialIsNoHeader(section: string, line: string)
    requires SetsCredential(section, line)
    ensures !IsHeader(line)
  {
    var trimmed := Text.TrimSpace(line);
    assert trimmed[0] == 'c' || trimmed[0] == 'm';
  }

  /** Dropping credential lines moves no other line to another section, and leaves none of them. */
  lemma {:induction false} DroppedCredentials(section: string, text: string)
    requires All(Shared, section, text)
    ensures All(Shared, section, Keep(Harmless, section, text))
    ensures All(Harmless, section, Keep(Harmless, section, text))
    decreases |text|
  {
    hide NewlineAt, SectionAfter, All, Keep, End, IsHeader, SetsCredential;
    var line, rest, last := text, "", true;
    if NewlineAt(text) < |text| {
      line, rest := FirstLineOf(text);
      last := false;
      UnfoldFirst(Harmless, section, line, rest);
      UnfoldFirst(Shared, section, line, rest);
      DroppedCredentials(SectionAfter(section, line), rest);
    } else {
      Unfold(Harmless, section, line);
      Unfold(Shared, section, line);
    }
    var now := SectionAfter(section, line);
    var later := if last then "" else Keep(Harmless, now, rest);
    if last {
      EmptyLine(Shared, now);
      EmptyLine(Harmless, now);
      BlankIsHarmless(now);
    }
    if SetsCredential(now, line) {
      CredentialIsNoHeader(now, line);
      NotAHeader(section, line);
      assert Keep(Harmless, section, text) == later;
    } else {
      UnfoldFirst(Shared, section, line, later);
      UnfoldFirst(Harmless, section, line, later);
      assert Keep(Harmless, section, text) == line + "\n" + later;
    }
  }

  lemma BlankIsHarmless(section: string)
    ensures Harmless(section, "")
  {
    assert Text.TrimSpace("") == "";
  }

  // ---- trimming ----

  /** The test does not look at the space around a line. */
  ghost predicate IgnoresSpace(test: Test) {
    && (forall section, line, other :: Text.TrimSpace(line) == Text.TrimSpace(other) ==>
         test(section, line) == test(section, other))
  }

  lemma SameLine(test: Test, section: string, line: string, other: string)
    requires IgnoresSpace(test) && Text.TrimSpace(line) == Text.TrimSpace(other)
    ensures SectionAfter(section, line) == SectionAfter(section, other)
    ensures test(SectionAfter(section, line), line) == test(SectionAfter(section, other), other)
  {
  }

  lemma {:induction false} TrimRightStep(line: string, c: char)
    requires Text.IsSpace(c)
    ensures Text.TrimSpace(line + [c]) == Text.TrimSpace(line)
    decreases |line|
  {
    assert (line + [c])[..|line|] == line;
    if line != "" && Text.IsSpace(line[0]) {
      assert (line + [c])[1..] == line[1..] + [c];
      TrimRightStep(line[1..], c);
    } else if line == "" {
      assert (line + [c])[1..] == "";
    }
  }

  lemma TrimLeftStep(line: string, c: char)
    requires Text.IsSpace(c)
    ensures Text.TrimSpace([c] + line) == Text.TrimSpace(line)
  {
    assert ([c] + line)[1..] == line;
  }

  lemma LeadingSpace(test: Test, section: string, c: char, rest: string)
    requires IgnoresSpace(test) && Text.IsSpace(c) && All(test, section, [c] + rest)
    ensures All(test, section, rest)
  {
    hide NewlineAt, SectionAfter, All, Keep, End, IgnoresSpace, Text.TrimSpace, Text.IsSpace;
    if c == '\n' {
      NewlineAtIs("", 0);
      UnfoldFirst(test, section, "", rest);
      assert "" + "\n" + rest == [c] + rest;
      EmptyLine(test, section);
      Unfold(test, section, "");
    } else if NewlineAt(rest) == |rest| {
      NewlineAtIs([c] + rest, |rest| + 1);
      Unfold(test, section, [c] + rest);
      Unfold(test, section, rest);
      TrimLeftStep(rest, c);
      SameLine(test, section, [c] + rest, rest);
    } else {
      var line, later := FirstLineOf(rest);
      NewlineAtIs([c] + line, |line| + 1);
      assert [c] + rest == [c] + line + "\n" + later;
      UnfoldFirst(test, section, [c] + line, later);
      UnfoldFirst(test, section, line, later);
      TrimLeftStep(line, c);
      SameLine(test, section, [c] + line, line);
    }
  }

  lemma {:induction false} TrailingSpace(test: Test, section: string, rest: string, c: char)
    requires IgnoresSpace(test) && Text.IsSpace(c) && All(test, section, rest + [c])
    ensures All(test, section, rest)
    decreases |rest|
  {
    hide NewlineAt, SectionAfter, All, Keep, End, IgnoresSpace, Text.TrimSpace, Text.IsSpace;
    if NewlineAt(rest) == |rest| {
      Unfold(test, section, rest);
      if c == '\n' {
        UnfoldFirst(test, section, rest, "");
        assert rest + "\n" + "" == rest + [c];
      } else {
        NewlineAtIs(rest + [c], |rest| + 1);
        Unfold(test, section, rest + [c]);
        TrimRightStep(rest, c);
        SameLine(test, section, rest + [c], rest);
      }
    } else {
      var line, later := FirstLineOf(rest);
      UnfoldFirst(test, section, line, later);
      assert rest + [c] == line + "\n" + (later + [c]);
      UnfoldFirst(test, section, line, later + [c]);
      TrailingSpace(test, SectionAfter(section, line), later, c);
    }
  }

  lemma {:induction false} TrimLeftKeepsAll(test: Test, section: string, text: string)
    requires IgnoresSpace(test) && All(test, section, text)
    ensures All(test, section, Text.TrimLeft(text))
    decreases |text|
  {
    hide All, IgnoresSpace;
    if text != "" && Text.IsSpace(text[0]) {
      assert text == [text[0]] + text[1..];
      LeadingSpace(test, section, text[0], text[1..]);
      TrimLeftKeepsAll(test, section, text[1..]);
    }
  }

  lemma {:induction false} TrimRightKeepsAll(test: Test, section: string, text: string)
    requires IgnoresSpace(test) && All(test, section, text)
    ensures All(test, section, Text.TrimRight(text))
    decreases |text|
  {
    hide All, IgnoresSpace;
    if text != "" && Text.IsSpace(text[|text| - 1]) {
      assert text == text[..|text| - 1] + [text[|text| - 1]];
      TrailingSpace(test, section, text[..|text| - 1], text[|text| - 1]);
      TrimRightKeepsAll(test, section, text[..|text| - 1]);
    }
  }

  lemma TrimKeepsAll(test: Test, section: string, text: string)
    requires IgnoresSpace(test) && All(test, section, text)
    ensures All(test, section, Text.TrimSpace(text))
  {
    hide All, IgnoresSpace;
    TrimLeftKeepsAll(test, section, text);
    TrimRightKeepsAll(test, section, Text.TrimLeft(text));
  }

  lemma TestsIgnoreSpace()
    ensures IgnoresSpace(InProject) && IgnoresSpace(Shared) && IgnoresSpace(Harmless)
    ensures OnSections(InProject) && OnSections(Shared)
  {
  }

  // ---- the parts of a synchronised file ----

  lemma ManagedIsShared(primary: string)
    requires Managed(primary) != ""
    ensures All(Shared, "", Managed(primary)) && All(Harmless, "", Managed(primary))
  {
    hide NewlineAt, SectionAfter, All, Keep, End, IgnoresSpace, OnSections;
    TestsIgnoreSpace();
    var shared := Keep(Shared, "", primary);
    KeptStandAlone(Shared, "", "", primary);
    if shared == "" {
      EmptyLine(Shared, "");
    }
    DroppedCredentials("", shared);
    TrimKeepsAll(Shared, "", Keep(Harmless, "", shared));
    TrimKeepsAll(Harmless, "", Keep(Harmless, "", shared));
  }

  lemma ProjectsStandAnywhere(config: string, section: string)
    requires Projects(config) != ""
    ensures All(InProject, section, Projects(config))
  {
    hide NewlineAt, SectionAfter, All, Keep, End, IgnoresSpace, OnSections;
    TestsIgnoreSpace();
    KeptStandAlone(InProject, "", section, config);
    assert Keep(InProject, "", config) != "" by {
      assert Text.TrimSpace("") == "";
    }
    TrimKeepsAll(InProject, section, Keep(InProject, "", config));
  }

  lemma PlainLine(section: string, line: string)
    requires Text.Trimmed(line) && line != "" && line[0] != '['
    ensures SectionAfter(section, line) == section
  {
    Text.TrimmedIsFixed(line);
  }

  lemma CredentialLinesAreShared()
    ensures All(Shared, "", CredentialLines()) && End("", CredentialLines()) == ""
  {
    hide All, Keep, End, SectionAfter, NewlineAt;
    PlainLine("", AUTH_LINE);
    PlainLine("", OAUTH_LINE);
    NewlineAtIs(AUTH_LINE, |AUTH_LINE|);
    NewlineAtIs(OAUTH_LINE, |OAUTH_LINE|);
    Unfold(Shared, "", OAUTH_LINE);
    UnfoldFirst(Shared, "", AUTH_LINE, OAUTH_LINE);
  }

  /** A blank line and another text after a text. */
  lemma WithPart(test: Test, section: string, before: string, text: string)
    ensures All(test, section, before + "\n\n" + text) <==>
            All(test, section, before) && test(End(section, before), "") && All(test, End(section, before), text)
    ensures Keep(test, section, before + "\n\n" + text) ==
            Keep(test, section, before) + (if test(End(section, before), "") then "\n" else "") +
              Keep(test, End(section, before), text)
    ensures End(section, before + "\n\n" + text) == End(End(section, before), text)
  {
    hide All, Keep, End, SectionAfter, NewlineAt;
    assert before + "\n\n" + text == before + "\n" + ("" + "\n" + text);
    Joined(test, section, before, "" + "\n" + text);
    NewlineAtIs("", 0);
    UnfoldFirst(test, End(section, before), "", text);
    Unfold(test, End(section, before), "");
    EmptyLine(test, End(section, before));
  }

  function Head(primary: string): string {
    CredentialLines() + Part(Managed(primary))
  }

  lemma HeadIsShared(primary: string)
    ensures All(Shared, "", Head(primary))
  {
    hide All, Keep, End, Managed, CredentialLines;
    CredentialLinesAreShared();
    var managed := Managed(primary);
    if managed != "" {
      ManagedIsShared(primary);
      assert CredentialLines() + ("\n\n" + managed) == CredentialLines() + "\n\n" + managed;
      WithPart(Shared, "", CredentialLines(), managed);
    } else {
      assert CredentialLines() + "" == CredentialLines();
    }
  }

  lemma TrailingNewlines(text: string)
    requires Text.Trimmed(text) && text != ""
    ensures Text.TrimSpace(text + "\n" + "\n") == text
  {
    TrimRightStep(text, '\n');
    TrimRightStep(text + "\n", '\n');
    Text.TrimmedIsFixed(text);
  }

  /** A synchronisation keeps the project block of the isolated file, whatever the primary file holds. */
  lemma ProjectsArePreserved(primary: string, isolated: string)
    ensures Projects(Synced(primary, isolated)) == Projects(isolated)
  {
    hide All, Keep, End, Managed, CredentialLines, Head, Text.TrimSpace;
    var head, projects := Head(primary), Projects(isolated);
    HeadIsShared(primary);
    NoneKept("", head);
    var section := End("", head);
    EmptyLine(InProject, section);
    if projects == "" {
      SyncedWithoutProjects(primary, isolated);
      Joined(InProject, "", head, "");
      assert head + "\n" + "" == Synced(primary, isolated);
      NothingIsTrimmed();
    } else {
      SyncedWithProjects(primary, isolated);
      ProjectsStandAnywhere(isolated, section);
      TestsIgnoreSpace();
      BlockIsKept(head, section, projects);
      hide Synced, InProject;
      assert Keep(InProject, "", Synced(primary, isolated)) == projects + "\n" + "\n";
      Text.TrimSpaceIsTrimmed(Keep(InProject, "", isolated));
      TrailingNewlines(projects);
    }
  }

  /** A project block after a text without project sections is all that filtering the two keeps. */
  lemma BlockIsKept(head: string, section: string, projects: string)
    requires Keep(InProject, "", head) == "" && section == End("", head) && !InProject(section, "")
    requires All(InProject, section, projects)
    ensures Keep(InProject, "", head + "\n\n" + projects + "\n") == projects + "\n" + "\n"
  {
    hide All, Keep, End;
    var body := head + "\n\n" + projects;
    WithPart(InProject, "", head, projects);
    AllKept(InProject, section, projects);
    assert body + "\n" + "" == body + "\n";
    Joined(InProject, "", body, "");
    TestsIgnoreSpace();
    AllReachesEnd(InProject, section, projects);
    EmptyLine(InProject, End("", body));
  }

  lemma NothingIsTrimmed()
    ensures Text.TrimSpace("") == ""
  {
  }

  lemma SyncedWithoutProjects(primary: string, isolated: string)
    requires Projects(isolated) == ""
    ensures Synced(primary, isolated) == Head(primary) + "\n"
  {
  }

  lemma SyncedWithProjects(primary: string, isolated: string)
    requires Projects(isolated) != ""
    ensures Synced(primary, isolated) == Head(primary) + "\n\n" + Projects(isolated) + "\n"
  {
    hide Projects, Managed, CredentialLines;
    var head, projects := Head(primary), Projects(isolated);
    var part := "\n\n" + projects;
    assert Part(projects) == part;
    assert head + part == head + "\n\n" + projects;
    assert Synced(primary, isolated) == head + part + "\n";
  }

  // ---- what the synchroniser promises ----

  /** Synchronising again from the same primary file changes nothing. */
  lemma SyncReachesFixpoint(primary: string, isolated: string)
    ensures Synced(primary, Synced(primary, isolated)) == Synced(primary, isolated)
  {
    hide Projects, Managed, CredentialLines;
    ProjectsArePreserved(primary, isolated);
  }

  function SyncAll(primaries: seq<string>, isolated: string): string {
    if primaries == [] then isolated
    else Synced(primaries[|primaries| - 1], SyncAll(primaries[..|primaries| - 1], isolated))
  }

  /** No sequence of synchronisations, from whatever primary files, loses or alters the project block. */
  lemma {:induction false} ProjectsSurviveEverySync(primaries: seq<string>, isolated: string)
    ensures Projects(SyncAll(primaries, isolated)) == Projects(isolated)
  {
    hide Projects, Synced;
    if primaries != [] {
      ProjectsSurviveEverySync(primaries[..|primaries| - 1], isolated);
      ProjectsArePreserved(primaries[|primaries| - 1], SyncAll(primaries[..|primaries| - 1], isolated));
    }
  }

  /** Only the last primary file matters: the result is one synchronisation from it. */
  lemma LastPrimaryWins(primaries: seq<string>, isolated: string)
    requires primaries != []
    ensures SyncAll(primaries, isolated) == Synced(primaries[|primaries| - 1], isolated)
  {
    hide Projects, Managed, CredentialLines;
    ProjectsSurviveEverySync(primaries[..|primaries| - 1], isolated);
  }

  /** Past the two fixed lines no line the source recognises sets where credentials are stored. */
  lemma OnlyFixedCredentials(primary: string, isolated: string) returns (rest: string)
    ensures Synced(primary, isolated) == CredentialLines() + rest
    ensures All(Harmless, "", rest)
  {
    hide All, Keep, End, Managed, Projects, CredentialLines, Text.TrimSpace;
    rest := Part(Managed(primary)) + Part(Projects(isolated)) + "\n";
    assert Synced(primary, isolated) == CredentialLines() + rest;
    RestIsHarmless(primary, isolated);
  }

  lemma {:induction false} ProjectsAreHarmless(section: string, text: string)
    requires All(InProject, section, text)
    ensures All(Harmless, section, text)
    decreases |text|
  {
    hide NewlineAt, SectionAfter, All, Keep, End;
    if NewlineAt(text) == |text| {
      Unfold(InProject, section, text);
      Unfold(Harmless, section, text);
    } else {
      var line, rest := FirstLineOf(text);
      UnfoldFirst(InProject, section, line, rest);
      UnfoldFirst(Harmless, section, line, rest);
      ProjectsAreHarmless(SectionAfter(section, line), rest);
    }
  }

  lemma PartIsHarmless(before: string, text: string)
    requires All(Harmless, "", before)
    requires text == "" || All(Harmless, End("", before), text)
    ensures All(Harmless, "", before + Part(text))
  {
    hide All, Keep, End, SetsCredential;
    if text == "" {
      assert before + "" == before;
    } else {
      assert before + ("\n\n" + text) == before + "\n\n" + text;
      WithPart(Harmless, "", before, text);
      BlankIsHarmless(End("", before));
    }
  }

  lemma RestIsHarmless(primary: string, isolated: string)
    ensures All(Harmless, "", Part(Managed(primary)) + Part(Projects(isolated)) + "\n")
  {
    hide All, Keep, End, Managed, Projects, CredentialLines, SetsCredential, Text.TrimSpace;
    var managed, projects := Managed(primary), Projects(isolated);
    EmptyLine(Harmless, "");
    BlankIsHarmless("");
    assert "" + Part(managed) == Part(managed);
    if managed != "" {
      ManagedIsShared(primary);
    }
    PartIsHarmless("", managed);
    var section := End("", Part(managed));
    if projects != "" {
      ProjectsStandAnywhere(isolated, section);
      ProjectsAreHarmless(section, projects);
    }
    PartIsHarmless(Part(managed), projects);
    var body := Part(managed) + Part(projects);
    assert body + "\n" + "" == body + "\n";
    Joined(Harmless, "", body, "");
    EmptyLine(Harmless, End("", body));
    BlankIsHarmless(End("", body));
  }
}
