/**
  What the synchronised configuration holds, section by section, in terms of lines and the headers above them
  (internal/state/config.go): project sections stay the isolated file's own, every other named section is the primary
  file's, and so are the top-level settings but for the credential ones.
*/
module ConfigSections {
  import Text
  import opened Config
  import opened ConfigSettings

  // ---- lines under headers ----

  predicate IsTitle(line: string) {
    var t := Text.TrimSpace(line);
    |t| >= 2 && t[0] == '[' && t[|t| - 1] == ']'
  }

  /** The line is a header, and name is what its brackets hold. */
  predicate Titled(line: string, name: string) {
    IsTitle(line) &&
      var t := Text.TrimSpace(line);
      Text.TrimSpace(t[1..|t| - 1]) == name
  }

  /** The last header up to line k has that name; a line with no header above it is under "". */
  ghost predicate Under(lines: seq<string>, k: nat, name: string)
    requires k < |lines|
  {
    || (name == "" && forall m :: 0 <= m <= k ==> !IsTitle(lines[m]))
    || exists h :: LastTitle(lines, h, k, name)
  }

  predicate LastTitle(lines: seq<string>, h: int, k: nat, name: string)
    requires k < |lines|
  {
    0 <= h <= k && Titled(lines[h], name) && forall m :: h < m <= k ==> !IsTitle(lines[m])
  }

  predicate Reads(lines: seq<string>, k: nat, entry: string) {
    k < |lines| && Text.TrimSpace(lines[k]) == entry
  }

  /** Some line under that header reads entry, but for the space around it. */
  ghost predicate Stands(text: string, name: string, entry: string) {
    exists k: nat :: Reads(Text.Split(text, '\n'), k, entry) && Under(Text.Split(text, '\n'), k, name)
  }

  // ---- the same by the source's reading ----

  /** Line k of lines, read from the section the text starts in, is under name. */
  ghost predicate UnderFrom(section: string, lines: seq<string>, k: nat, name: string)
    requires k < |lines|
  {
    || (name == section && forall m :: 0 <= m <= k ==> !IsTitle(lines[m]))
    || exists h :: LastTitle(lines, h, k, name)
  }

  ghost predicate StandsFrom(section: string, lines: seq<string>, name: string, entry: string) {
    exists k: nat :: Reads(lines, k, entry) && UnderFrom(section, lines, k, name)
  }

  lemma HeaderIsTitle(section: string, line: string)
    ensures IsHeader(line) <==> IsTitle(line)
    ensures IsTitle(line) ==> Titled(line, SectionAfter(section, line))
    ensures forall name :: Titled(line, name) ==> name == SectionAfter(section, line)
    ensures !IsTitle(line) ==> SectionAfter(section, line) == section
  {
  }

  /** The first line is under the section it leads to, and the lines after it go on from there. */
  lemma UnderOneMore(section: string, lines: seq<string>, k: nat, name: string)
    requires 0 < k < |lines|
    ensures UnderFrom(section, lines, k, name) <==>
              UnderFrom(SectionAfter(section, lines[0]), lines[1..], k - 1, name)
  {
    var rest, now := lines[1..], SectionAfter(section, lines[0]);
    HeaderIsTitle(section, lines[0]);
    assert forall m :: 0 < m <= k ==> lines[m] == rest[m - 1];
    assert forall m :: 0 <= m < k ==> rest[m] == lines[m + 1];
    hide IsTitle, Titled, SectionAfter;
    if UnderFrom(section, lines, k, name) {
      if h :| LastTitle(lines, h, k, name) {
        if h > 0 {
          assert LastTitle(rest, h - 1, k - 1, name);
        }
      }
    }
    var j: nat := k - 1;
    if UnderFrom(now, rest, j, name) {
      if h :| LastTitle(rest, h, j, name) {
        assert LastTitle(lines, h + 1, k, name);
      } else if IsTitle(lines[0]) {
        assert LastTitle(lines, 0, k, name);
      }
    }
  }

  lemma UnderFirst(section: string, lines: seq<string>, name: string)
    requires lines != []
    ensures UnderFrom(section, lines, 0, name) <==> name == SectionAfter(section, lines[0])
  {
    HeaderIsTitle(section, lines[0]);
    if IsTitle(lines[0]) {
      assert LastTitle(lines, 0, 0, SectionAfter(section, lines[0]));
    }
  }

  lemma StandsOneMore(section: string, lines: seq<string>, name: string, entry: string)
    requires lines != []
    ensures var now := SectionAfter(section, lines[0]);
            StandsFrom(section, lines, name, entry) <==>
              (now == name && Text.TrimSpace(lines[0]) == entry) || StandsFrom(now, lines[1..], name, entry)
  {
    var now, rest := SectionAfter(section, lines[0]), lines[1..];
    UnderFirst(section, lines, name);
    hide SectionAfter, UnderFrom;
    forall k: nat | 0 < k < |lines|
      ensures UnderFrom(section, lines, k, name) <==> UnderFrom(now, rest, k - 1, name)
    {
      UnderOneMore(section, lines, k, name);
    }
    if StandsFrom(section, lines, name, entry) {
      var k: nat :| Reads(lines, k, entry) && UnderFrom(section, lines, k, name);
      if k > 0 {
        assert Reads(rest, k - 1, entry);
      }
    }
    if now == name && Text.TrimSpace(lines[0]) == entry {
      assert Reads(lines, 0, entry);
    }
    if StandsFrom(now, rest, name, entry) {
      var k: nat :| Reads(rest, k, entry) && UnderFrom(now, rest, k, name);
      assert Reads(lines, k + 1, entry) && UnderFrom(section, lines, k + 1, name);
    }
  }

  lemma {:induction false} StandsIsHeld(section: string, text: string, name: string, entry: string)
    ensures StandsFrom(section, Text.Split(text, '\n'), name, entry) <==> !All(Missing(name, entry), section, text)
    decreases |text|
  {
    var lines := Text.Split(text, '\n');
    NewlineAtIs(text, Text.IndexOf(text, '\n'));
    StandsOneMore(section, lines, name, entry);
    hide SectionAfter, StandsFrom, NewlineAt, All;
    if NewlineAt(text) == |text| {
      assert lines[1..] == [];
      Unfold(Missing(name, entry), section, text);
      NothingStands(SectionAfter(section, text), name, entry);
    } else {
      var line, rest := text[..NewlineAt(text)], text[NewlineAt(text) + 1..];
      assert text == line + "\n" + rest;
      NewlineAtIs(line, |line|);
      UnfoldFirst(Missing(name, entry), section, line, rest);
      assert lines[1..] == Text.Split(rest, '\n');
      StandsIsHeld(SectionAfter(section, line), rest, name, entry);
    }
  }

  lemma NothingStands(section: string, name: string, entry: string)
    ensures !StandsFrom(section, [], name, entry)
  {
  }

  lemma StandsIsHolds(text: string, name: string, entry: string)
    ensures Stands(text, name, entry) <==> Holds(text, name, entry)
  {
    StandsIsHeld("", text, name, entry);
    hide All;
  }

  // ---- what a synchronisation does to each section ----

  /** A project's section, or the table of them all. */
  predicate OfProjects(name: string) {
    name == "projects" || (|name| >= 9 && name[..9] == "projects.")
  }

  lemma ProjectNames(name: string)
    ensures IsProjectSection(name) <==> OfProjects(name)
  {
    if |name| >= 9 {
      assert "projects." <= name <==> name[..9] == "projects.";
    }
  }

  /** Under a project header stands exactly what stood there in the isolated file: nothing is lost, nothing comes in. */
  lemma ProjectLinesStay(primary: string, isolated: string, name: string, entry: string)
    requires OfProjects(name) && entry != ""
    ensures Stands(Synced(primary, isolated), name, entry) <==> Stands(isolated, name, entry)
  {
    ProjectNames(name);
    StandsIsHolds(Synced(primary, isolated), name, entry);
    StandsIsHolds(isolated, name, entry);
    hide Stands, Holds, Synced, OfProjects, IsProjectSection;
    SyncedProjects(primary, isolated, name, entry);
  }

  lemma EntriesAreTrimmed(text: string, name: string, entry: string)
    requires Stands(text, name, entry)
    ensures Text.TrimSpace(entry) == entry
  {
    var k: nat :| Reads(Text.Split(text, '\n'), k, entry) && Under(Text.Split(text, '\n'), k, name);
    var line := Text.Split(text, '\n')[k];
    Text.TrimSpaceIsTrimmed(line);
    Text.TrimmedIsFixed(entry);
  }

  /** Under any other header, an MCP server's for one, stands exactly what stands there in the primary file. */
  lemma SharedLinesFollow(primary: string, isolated: string, name: string, entry: string)
    requires !OfProjects(name) && name != "" && entry != ""
    ensures Stands(Synced(primary, isolated), name, entry) <==> Stands(primary, name, entry)
  {
    if Stands(Synced(primary, isolated), name, entry) {
      EntriesAreTrimmed(Synced(primary, isolated), name, entry);
    }
    if Stands(primary, name, entry) {
      EntriesAreTrimmed(primary, name, entry);
    }
    ProjectNames(name);
    StandsIsHolds(Synced(primary, isolated), name, entry);
    StandsIsHolds(primary, name, entry);
    hide Stands, Holds, Synced, OfProjects, IsProjectSection, Text.TrimSpace;
    if Text.TrimSpace(entry) == entry {
      SyncedLines(primary, isolated, name, entry);
    }
  }

  /** The two settings the isolated file always has. */
  predicate Fixed(entry: string) {
    || entry == "cli_auth_credentials_store = \"file\""
    || entry == "mcp_oauth_credentials_store = \"file\""
  }

  /** A setting of where credentials are kept, written with one space before its equals sign. */
  predicate Credential(entry: string) {
    || (|entry| >= 28 && entry[..28] == "cli_auth_credentials_store =")
    || (|entry| >= 29 && entry[..29] == "mcp_oauth_credentials_store =")
  }

  lemma CredentialsAreRecognised(entry: string)
    requires Text.TrimSpace(entry) == entry
    ensures Recognised(entry) <==> Credential(entry)
  {
    hide Text.TrimSpace;
    if |entry| >= 28 {
      assert "cli_auth_credentials_store =" <= entry <==> entry[..28] == "cli_auth_credentials_store =";
    }
    if |entry| >= 29 {
      assert "mcp_oauth_credentials_store =" <= entry <==> entry[..29] == "mcp_oauth_credentials_store =";
    }
  }

  /** Above every header stand the two fixed settings and those of the primary file that are not about credentials. */
  lemma TopLinesFollow(primary: string, isolated: string, entry: string)
    requires entry != ""
    ensures Stands(Synced(primary, isolated), "", entry) <==>
              Fixed(entry) || (Stands(primary, "", entry) && !Credential(entry))
  {
    if Stands(Synced(primary, isolated), "", entry) {
      EntriesAreTrimmed(Synced(primary, isolated), "", entry);
    }
    if Stands(primary, "", entry) {
      EntriesAreTrimmed(primary, "", entry);
    }
    FixedAreTrimmed();
    StandsIsHolds(Synced(primary, isolated), "", entry);
    StandsIsHolds(primary, "", entry);
    hide Stands, Holds, Synced, Text.TrimSpace, Recognised, Credential;
    if Text.TrimSpace(entry) == entry {
      SyncedLines(primary, isolated, "", entry);
      CredentialsAreRecognised(entry);
    }
  }

  lemma FixedAreTrimmed()
    ensures Text.TrimSpace(AUTH_LINE) == AUTH_LINE && Text.TrimSpace(OAUTH_LINE) == OAUTH_LINE
  {
    Text.TrimmedIsFixed(AUTH_LINE);
    Text.TrimmedIsFixed(OAUTH_LINE);
  }
}
