/**
  Which top-level settings of the primary configuration reach the isolated one, by internal/state/config.go. Credential
  settings are meant to be replaced by two fixed lines; they are when they are written the way the source recognises.
*/
module ConfigSettings {
  import Text
  import opened Config

  const AUTH_KEY := "cli_auth_credentials_store"
  const OAUTH_KEY := "mcp_oauth_credentials_store"

  /** No line of the section called name reads setting, but for the space around it; top-level lines are under "". */
  function Missing(name: string, setting: string): Test {
    (section, line) => !(section == name && Text.TrimSpace(line) == setting)
  }

  /** Some line of that section does. */
  predicate Holds(text: string, name: string, setting: string) {
    !All(Missing(name, setting), "", text)
  }

  /** Some top-level line does. */
  predicate Sets(text: string, setting: string) {
    Holds(text, "", setting)
  }

  predicate Recognised(setting: string) {
    SetsCredential("", setting)
  }

  // ---- filtering by section ----

  /** Keeping whole sections keeps the lines of every section kept. */
  lemma {:induction false} SectionsKeepSettings(test: Test, name: string, setting: string, section: string,
                                                from: string, text: string)
    requires setting != "" && OnSections(test) && test(name, "") && (test(section, "") ==> from == section)
    ensures var kept := Keep(test, section, text);
            All(Missing(name, setting), section, text) <==> kept == "" || All(Missing(name, setting), from, kept)
    decreases |text|
  {
    hide NewlineAt, SectionAfter, All, Keep, IsHeader;
    var missing := Missing(name, setting);
    var line, rest := text, "";
    var only := NewlineAt(text) == |text|;
    if !only {
      line, rest := FirstLineOf(text);
      UnfoldFirst(test, section, line, rest);
      UnfoldFirst(missing, section, line, rest);
    } else {
      Unfold(test, section, line);
      Unfold(missing, section, line);
    }
    var now, then' := SectionAfter(section, line), SectionAfter(from, line);
    if IsHeader(line) {
      AHeader(section, from, line);
    } else {
      NotAHeader(section, line);
      NotAHeader(from, line);
    }
    var later := if only then "" else Keep(test, now, rest);
    assert test(now, line) == test(now, "");
    if test(now, line) {
      assert now == then';
      if !only {
        SectionsKeepSettings(test, name, setting, now, then', rest);
      }
      UnfoldFirst(missing, from, line, later);
      assert Keep(test, section, text) == line + "\n" + later;
      BlankIsMissing(name, setting, then');
    } else {
      assert now != name;
      if !only {
        SectionsKeepSettings(test, name, setting, now, from, rest);
      }
      assert Keep(test, section, text) == later;
    }
  }

  lemma BlankIsMissing(name: string, setting: string, section: string)
    requires setting != ""
    ensures All(Missing(name, setting), section, "") && Missing(name, setting)(section, "")
  {
    assert Text.TrimSpace("") == "";
    EmptyLine(Missing(name, setting), section);
  }

  // ---- dropping credential settings ----

  lemma {:induction false} HarmlessKeepsSettings(name: string, setting: string, section: string, text: string)
    requires setting != "" && Text.TrimSpace(setting) == setting
    ensures All(Missing(name, setting), section, Keep(Harmless, section, text)) <==>
              (name == "" && Recognised(setting)) || All(Missing(name, setting), section, text)
    decreases |text|
  {
    hide NewlineAt, SectionAfter, All, Keep, IsHeader, SetsCredential;
    var test := Missing(name, setting);
    var line, rest := text, "";
    var only := NewlineAt(text) == |text|;
    if !only {
      line, rest := FirstLineOf(text);
      UnfoldFirst(Harmless, section, line, rest);
      UnfoldFirst(test, section, line, rest);
    } else {
      Unfold(Harmless, section, line);
      Unfold(test, section, line);
    }
    var now := SectionAfter(section, line);
    var later := if only then "" else Keep(Harmless, now, rest);
    BlankIsMissing(name, setting, now);
    if !only {
      HarmlessKeepsSettings(name, setting, now, rest);
    }
    SameSetting(name, setting, now, line);
    if SetsCredential(now, line) {
      CredentialIsNoHeader(now, line);
      NotAHeader(section, line);
      assert Keep(Harmless, section, text) == later;
    } else {
      UnfoldFirst(test, section, line, later);
      assert Keep(Harmless, section, text) == line + "\n" + later;
    }
  }

  /** A line that reads setting is recognised exactly when setting is. */
  lemma SameSetting(name: string, setting: string, section: string, line: string)
    requires Text.TrimSpace(setting) == setting
    ensures !Missing(name, setting)(section, line) ==>
              (SetsCredential(section, line) <==> name == "" && Recognised(setting))
  {
  }

  // ---- trimming ----

  lemma SpaceBefore(name: string, setting: string, section: string, c: char, rest: string)
    requires setting != "" && Text.IsSpace(c) && All(Missing(name, setting), section, rest)
    ensures All(Missing(name, setting), section, [c] + rest)
  {
    hide NewlineAt, SectionAfter, All, Keep, End, Text.TrimSpace, Text.IsSpace;
    var test := Missing(name, setting);
    BlankIsMissing(name, setting, section);
    if c == '\n' {
      NewlineAtIs("", 0);
      UnfoldFirst(test, section, "", rest);
      assert "" + "\n" + rest == [c] + rest;
      EmptyLine(test, section);
      Unfold(test, section, "");
    } else if NewlineAt(rest) == |rest| {
      NewlineAtIs([c] + rest, |rest| + 1);
      Unfold(test, section, [c] + rest);
      Unfold(test, section, rest);
      TrimLeftStep(rest, c);
      MissingIgnoresSpace(name, setting);
      SameLine(test, section, [c] + rest, rest);
    } else {
      var line, later := FirstLineOf(rest);
      NewlineAtIs([c] + line, |line| + 1);
      assert [c] + rest == [c] + line + "\n" + later;
      UnfoldFirst(test, section, [c] + line, later);
      UnfoldFirst(test, section, line, later);
      TrimLeftStep(line, c);
      MissingIgnoresSpace(name, setting);
      SameLine(test, section, [c] + line, line);
    }
  }

  lemma MissingIgnoresSpace(name: string, setting: string)
    ensures IgnoresSpace(Missing(name, setting))
  {
  }

  lemma {:induction false} SpaceAfter(name: string, setting: string, section: string, rest: string, c: char)
    requires setting != "" && Text.IsSpace(c) && All(Missing(name, setting), section, rest)
    ensures All(Missing(name, setting), section, rest + [c])
    decreases |rest|
  {
    hide NewlineAt, SectionAfter, All, Keep, End, Text.TrimSpace, Text.IsSpace;
    var test := Missing(name, setting);
    if NewlineAt(rest) == |rest| {
      Unfold(test, section, rest);
      if c == '\n' {
        UnfoldFirst(test, section, rest, "");
        BlankIsMissing(name, setting, SectionAfter(section, rest));
        assert rest + "\n" + "" == rest + [c];
      } else {
        NewlineAtIs(rest + [c], |rest| + 1);
        Unfold(test, section, rest + [c]);
        TrimRightStep(rest, c);
        MissingIgnoresSpace(name, setting);
        SameLine(test, section, rest + [c], rest);
      }
    } else {
      var line, later := FirstLineOf(rest);
      UnfoldFirst(test, section, line, later);
      assert rest + [c] == line + "\n" + (later + [c]);
      UnfoldFirst(test, section, line, later + [c]);
      SpaceAfter(name, setting, SectionAfter(section, line), later, c);
    }
  }

  lemma {:induction false} TrimLeftLosesNothing(name: string, setting: string, section: string, text: string)
    requires setting != "" && All(Missing(name, setting), section, Text.TrimLeft(text))
    ensures All(Missing(name, setting), section, text)
    decreases |text|
  {
    hide All;
    if text != "" && Text.IsSpace(text[0]) {
      assert text == [text[0]] + text[1..];
      TrimLeftLosesNothing(name, setting, section, text[1..]);
      SpaceBefore(name, setting, section, text[0], text[1..]);
    }
  }

  lemma {:induction false} TrimRightLosesNothing(name: string, setting: string, section: string, text: string)
    requires setting != "" && All(Missing(name, setting), section, Text.TrimRight(text))
    ensures All(Missing(name, setting), section, text)
    decreases |text|
  {
    hide All;
    if text != "" && Text.IsSpace(text[|text| - 1]) {
      assert text == text[..|text| - 1] + [text[|text| - 1]];
      TrimRightLosesNothing(name, setting, section, text[..|text| - 1]);
      SpaceAfter(name, setting, section, text[..|text| - 1], text[|text| - 1]);
    }
  }

  lemma TrimKeepsSettings(name: string, setting: string, section: string, text: string)
    requires setting != ""
    ensures All(Missing(name, setting), section, Text.TrimSpace(text)) <==> All(Missing(name, setting), section, text)
  {
    hide All;
    MissingIgnoresSpace(name, setting);
    if All(Missing(name, setting), section, text) {
      TrimKeepsAll(Missing(name, setting), section, text);
    }
    if All(Missing(name, setting), section, Text.TrimSpace(text)) {
      TrimRightLosesNothing(name, setting, section, Text.TrimLeft(text));
      TrimLeftLosesNothing(name, setting, section, text);
    }
  }

  // ---- the parts of the isolated file ----

  /** A line of a section that is not a project's is passed on, unless it is a recognised top-level setting. */
  lemma ManagedLines(primary: string, name: string, setting: string)
    requires setting != "" && Text.TrimSpace(setting) == setting && !IsProjectSection(name)
    ensures Holds(Managed(primary), name, setting) <==>
              Holds(primary, name, setting) && !(name == "" && Recognised(setting))
  {
    SectionsOnly();
    hide All, Keep, Text.TrimSpace, SetsCredential, OnSections;
    var shared := Keep(Shared, "", primary);
    SectionsKeepSettings(Shared, name, setting, "", "", primary);
    BlankIsMissing(name, setting, "");
    HarmlessKeepsSettings(name, setting, "", shared);
    TrimKeepsSettings(name, setting, "", Keep(Harmless, "", shared));
  }

  lemma SectionsOnly()
    ensures OnSections(Shared) && OnSections(InProject)
  {
  }

  /** The project block holds what its sections held, wherever it is put that is not in a project section itself. */
  lemma ProjectLines(isolated: string, name: string, setting: string, from: string)
    requires setting != "" && IsProjectSection(name) && !IsProjectSection(from)
    ensures All(Missing(name, setting), from, Projects(isolated)) <==> !Holds(isolated, name, setting)
  {
    SectionsOnly();
    hide All, Keep, Text.TrimSpace, OnSections;
    var kept := Keep(InProject, "", isolated);
    SectionsKeepSettings(InProject, name, setting, "", from, isolated);
    BlankIsMissing(name, setting, from);
    TrimKeepsSettings(name, setting, from, kept);
  }

  lemma {:induction false} OtherSectionsHoldNothing(test: Test, name: string, setting: string, section: string,
                                                    text: string)
    requires OnSections(test) && All(test, section, text) && !test(name, "")
    ensures All(Missing(name, setting), section, text)
    decreases |text|
  {
    hide NewlineAt, SectionAfter, All, Keep, End;
    if NewlineAt(text) == |text| {
      Unfold(test, section, text);
      Unfold(Missing(name, setting), section, text);
    } else {
      var line, rest := FirstLineOf(text);
      UnfoldFirst(test, section, line, rest);
      UnfoldFirst(Missing(name, setting), section, line, rest);
      OtherSectionsHoldNothing(test, name, setting, SectionAfter(section, line), rest);
    }
  }

  lemma FixedLines(name: string, setting: string)
    ensures Holds(CredentialLines(), name, setting) <==> name == "" && (setting == AUTH_LINE || setting == OAUTH_LINE)
    ensures End("", CredentialLines()) == ""
  {
    hide All, Keep, End, SectionAfter, NewlineAt;
    CredentialLinesAreShared();
    PlainLine("", AUTH_LINE);
    PlainLine("", OAUTH_LINE);
    Text.TrimmedIsFixed(AUTH_LINE);
    Text.TrimmedIsFixed(OAUTH_LINE);
    NewlineAtIs(AUTH_LINE, |AUTH_LINE|);
    NewlineAtIs(OAUTH_LINE, |OAUTH_LINE|);
    Unfold(Missing(name, setting), "", OAUTH_LINE);
    UnfoldFirst(Missing(name, setting), "", AUTH_LINE, OAUTH_LINE);
  }

  lemma PartSets(name: string, setting: string, before: string, text: string)
    requires setting != ""
    ensures All(Missing(name, setting), "", before + Part(text)) <==>
              && All(Missing(name, setting), "", before)
              && (text == "" || All(Missing(name, setting), End("", before), text))
  {
    hide All, Keep, End;
    if text == "" {
      assert before + "" == before;
    } else {
      assert before + ("\n\n" + text) == before + "\n\n" + text;
      WithPart(Missing(name, setting), "", before, text);
      BlankIsMissing(name, setting, End("", before));
    }
  }

  /** What the isolated file holds is what its three parts hold, each where it stands. */
  lemma SyncedParts(primary: string, isolated: string, name: string, setting: string)
    requires setting != ""
    ensures var managed, projects := Managed(primary), Projects(isolated);
            Holds(Synced(primary, isolated), name, setting) <==>
              || Holds(CredentialLines(), name, setting)
              || (managed != "" && Holds(managed, name, setting))
              || (projects != "" && !All(Missing(name, setting), End("", Head(primary)), projects))
  {
    hide All, Keep, End, Managed, Projects, CredentialLines, Text.TrimSpace;
    var managed, projects := Managed(primary), Projects(isolated);
    FixedLines(name, setting);
    PartSets(name, setting, CredentialLines(), managed);
    var head := CredentialLines() + Part(managed);
    PartSets(name, setting, head, projects);
    var body := head + Part(projects);
    assert Synced(primary, isolated) == body + "\n";
    assert body + "\n" + "" == body + "\n";
    Joined(Missing(name, setting), "", body, "");
    BlankIsMissing(name, setting, End("", body));
  }

  // ---- what reaches the isolated file ----

  /** A section that is not a project's holds what is passed on of the primary file, and the fixed lines at the top. */
  lemma SyncedShared(primary: string, isolated: string, name: string, setting: string)
    requires setting != "" && !IsProjectSection(name)
    ensures Holds(Synced(primary, isolated), name, setting) <==>
              || (name == "" && (setting == AUTH_LINE || setting == OAUTH_LINE))
              || Holds(Managed(primary), name, setting)
  {
    SectionsOnly();
    hide All, Keep, End, Managed, Projects, CredentialLines, Text.TrimSpace, OnSections, SetsCredential;
    SyncedParts(primary, isolated, name, setting);
    FixedLines(name, setting);
    BlankIsMissing(name, setting, "");
    if Projects(isolated) != "" {
      ProjectsStandAnywhere(isolated, End("", Head(primary)));
      OtherSectionsHoldNothing(InProject, name, setting, End("", Head(primary)), Projects(isolated));
    }
  }

  /** So it holds what the primary file holds there, but for credential settings. */
  lemma SyncedLines(primary: string, isolated: string, name: string, setting: string)
    requires setting != "" && Text.TrimSpace(setting) == setting && !IsProjectSection(name)
    ensures Holds(Synced(primary, isolated), name, setting) <==>
              || (name == "" && (setting == AUTH_LINE || setting == OAUTH_LINE))
              || (Holds(primary, name, setting) && !(name == "" && Recognised(setting)))
  {
    hide Holds, Synced, Managed, SetsCredential, Text.TrimSpace;
    SyncedShared(primary, isolated, name, setting);
    ManagedLines(primary, name, setting);
  }

  /** A project section holds what the isolated file held there before, whatever the primary file has. */
  lemma SyncedProjects(primary: string, isolated: string, name: string, setting: string)
    requires setting != "" && IsProjectSection(name)
    ensures Holds(Synced(primary, isolated), name, setting) <==> Holds(isolated, name, setting)
  {
    SectionsOnly();
    hide All, Keep, End, Managed, Projects, CredentialLines, Text.TrimSpace, OnSections, SetsCredential, Head;
    SyncedParts(primary, isolated, name, setting);
    FixedLines(name, setting);
    if Managed(primary) != "" {
      ManagedIsShared(primary);
      OtherSectionsHoldNothing(Shared, name, setting, "", Managed(primary));
    }
    HeadIsShared(primary);
    AllReachesEnd(Shared, "", Head(primary));
    ProjectLines(isolated, name, setting, End("", Head(primary)));
    BlankIsMissing(name, setting, End("", Head(primary)));
  }

  /** A top-level setting of the primary file is passed on if and only if it is not recognised. */
  lemma ManagedSettings(primary: string, setting: string)
    requires setting != "" && Text.TrimSpace(setting) == setting
    ensures Sets(Managed(primary), setting) <==> Sets(primary, setting) && !Recognised(setting)
  {
    ManagedLines(primary, "", setting);
  }

  lemma SyncedSettings(primary: string, isolated: string, setting: string)
    requires setting != ""
    ensures Sets(Synced(primary, isolated), setting) <==>
              setting == AUTH_LINE || setting == OAUTH_LINE || Sets(Managed(primary), setting)
  {
    SyncedShared(primary, isolated, "", setting);
  }

  /** An assignment is recognised if and only if exactly one space stands before its equals sign. */
  lemma OneSpaceIsRecognised(key: string, space: string, rest: string)
    requires (key == AUTH_KEY || key == OAUTH_KEY) && forall i :: 0 <= i < |space| ==> Text.IsSpace(space[i])
    ensures SetsCredential("", key + space + "=" + rest) <==> space == " "
    ensures Text.TrimSpace(key + space + "=" + rest) != ""
  {
    var line, n := key + space + "=" + rest, |key| + |space|;
    var t := Text.TrimSpace(line);
    assert line[0] == key[0] && line[n] == '=';
    TrimmedAssignment(line, n);
    assert t[..n + 1] == key + space + "=";
    assert t[0] == key[0];
    assert AUTH_KEY[0] == 'c' && OAUTH_KEY[0] == 'm';
    hide Text.TrimSpace;
    if space == "" {
      assert t[|key|] == '=';
    } else if space == " " {
      assert t[..n + 1] == key + " =";
    } else {
      assert t[|key|] == space[0];
      assert |space| > 1 ==> t[|key| + 1] == space[1] && Text.IsSpace(space[1]);
      assert |space| == 1 ==> space == [space[0]];
    }
  }

  lemma TrimmedAssignment(line: string, n: nat)
    requires n < |line| && !Text.IsSpace(line[0]) && !Text.IsSpace(line[n])
    ensures |Text.TrimSpace(line)| > n && Text.TrimSpace(line) <= line
  {
    assert Text.TrimLeft(line) == line;
    Text.TrimRightPrefix(line);
  }

  /**
    A top-level credential setting of the primary file, whatever white space it has around its equals sign, reaches the
    isolated file if and only if that white space is not exactly one space before the sign, or it reads like a fixed
    line. TOML takes any amount for the same setting.
  */
  lemma SettingIsReplacedExactly(primary: string, isolated: string, key: string, space: string, rest: string)
    requires (key == AUTH_KEY || key == OAUTH_KEY) && forall i :: 0 <= i < |space| ==> Text.IsSpace(space[i])
    requires Sets(primary, Text.TrimSpace(key + space + "=" + rest))
    ensures var setting := Text.TrimSpace(key + space + "=" + rest);
            && (Sets(Managed(primary), setting) <==> space != " ")
            && (Sets(Synced(primary, isolated), setting) <==>
                  space != " " || setting == AUTH_LINE || setting == OAUTH_LINE)
  {
    var line := key + space + "=" + rest;
    var setting := Text.TrimSpace(line);
    OneSpaceIsRecognised(key, space, rest);
    Text.TrimSpaceIsTrimmed(line);
    Text.TrimmedIsFixed(setting);
    ManagedSettings(primary, setting);
    SyncedSettings(primary, isolated, setting);
  }

  /** A primary file of one line that is neither a header nor recognised is passed on as it is. */
  lemma LoneLineIsManaged(line: string)
    requires Text.Trimmed(line) && line != "" && line[0] != '[' && NewlineAt(line) == |line| && !Recognised(line)
    ensures Managed(line) == line && Sets(line, line)
  {
    hide All, Keep, SectionAfter, NewlineAt, SetsCredential;
    PlainLine("", line);
    Text.TrimmedIsFixed(line);
    Unfold(Shared, "", line);
    Unfold(Missing("", line), "", line);
    UnfoldFirst(Harmless, "", line, "");
    assert line + "\n" + "" == line + "\n";
    EmptyLine(Harmless, "");
    BlankIsHarmless("");
    TrailingNewlines(line);
  }

  const KEYRING_LINE := "cli_auth_credentials_store=\"keyring\""

  lemma KeyringIsOneLine()
    ensures NewlineAt(KEYRING_LINE) == |KEYRING_LINE| && Text.Trimmed(KEYRING_LINE)
    ensures KEYRING_LINE != "" && KEYRING_LINE[0] != '[' && AUTH_LINE != ""
  {
    hide NewlineAt;
    NewlineAtIs(KEYRING_LINE, |KEYRING_LINE|);
  }

  lemma KeyringIsNotRecognised()
    ensures !Recognised(KEYRING_LINE)
  {
    Text.TrimmedIsFixed(KEYRING_LINE);
    assert KEYRING_LINE[26] == '=' && KEYRING_LINE[0] == 'c';
  }

  /** So the isolated file can set the key twice, the second time to something else than the source means it to be. */
  lemma SettingIsKeptTwice(isolated: string)
    ensures Managed(KEYRING_LINE) == KEYRING_LINE
    ensures Sets(Synced(KEYRING_LINE, isolated), KEYRING_LINE) && Sets(Synced(KEYRING_LINE, isolated), AUTH_LINE)
  {
    KeyringIsOneLine();
    KeyringIsNotRecognised();
    hide *;
    LoneLineIsManaged(KEYRING_LINE);
    SyncedSettings(KEYRING_LINE, isolated, KEYRING_LINE);
    SyncedSettings(KEYRING_LINE, isolated, AUTH_LINE);
  }
}
