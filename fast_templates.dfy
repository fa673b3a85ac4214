// The application template gallery (frontend/src/components/Applications/FastTemplatesTab.tsx):
// the template list built from the bundled JSON files, the category list and
// its id-to-name map, the search and category filter, the card badges, the
// note markup and the install command.
module FastTemplates {
  import opened Prelude
  import opened Text

  datatype Category = Category(id: int, name: string, sortOrder: int)

  datatype InstallMethod = InstallMethod(kind: string, script: string)

  /** The fields of a template file the gallery reads; any may be missing. */
  datatype Template = Template(
    slug: string, name: Option<string>, description: Option<string>,
    categories: Option<seq<int>>, installMethods: seq<InstallMethod>)

  /** One bundled file: its path and its JSON, read as a template or as the
      metadata file's category list. */
  datatype File = File(path: string, template: Template, categories: seq<Category>)

  /** The files that are templates: not the metadata file and no version list. */
  predicate IsTemplateFile(f: File)
  {
    !EndsWith(f.path, "metadata.json") && !EndsWith(f.path, "versions.json") && !EndsWith(f.path, "github-versions.json")
  }

  function TemplatesOf(files: seq<File>): (r: seq<Template>)
    ensures |r| == |files|
    ensures forall i :: 0 <= i < |files| ==> r[i] == files[i].template
  {
    if files == [] then [] else [files[0].template] + TemplatesOf(files[1..])
  }

  /** `localeCompare` on the names, a missing name counting as empty; the
      collation itself is the parameter `le`. */
  function ByName(le: (string, string) -> bool): (Template, Template) -> bool
  {
    (a: Template, b: Template) => le(a.name.GetOr(""), b.name.GetOr(""))
  }

  /** `templates`: the template files' contents, sorted by name. */
  function TemplateList(files: seq<File>, le: (string, string) -> bool): seq<Template>
  {
    SortBy(TemplatesOf(Filter(files, IsTemplateFile)), ByName(le))
  }

  /** The list holds exactly the template files' contents, ordered by name
      whenever the collation is a total preorder. */
  lemma TemplateListSorted(files: seq<File>, le: (string, string) -> bool)
    requires TotalPreorder(le)
    ensures SortedBy(TemplateList(files, le), ByName(le))
    ensures multiset(TemplateList(files, le)) == multiset(TemplatesOf(Filter(files, IsTemplateFile)))
    ensures forall t :: t in TemplateList(files, le) ==> exists f :: f in files && IsTemplateFile(f) && f.template == t
  {
    var byName := ByName(le);
    assert TotalPreorder(byName) by {
      forall a: Template, b: Template ensures byName(a, b) || byName(b, a) {
        assert le(a.name.GetOr(""), b.name.GetOr("")) || le(b.name.GetOr(""), a.name.GetOr(""));
      }
      forall a: Template, b: Template, c: Template | byName(a, b) && byName(b, c) ensures byName(a, c) {
        assert le(a.name.GetOr(""), b.name.GetOr("")) && le(b.name.GetOr(""), c.name.GetOr(""));
      }
    }
    SortBySorted(TemplatesOf(Filter(files, IsTemplateFile)), byName);
    var shown := Filter(files, IsTemplateFile);
    forall t | t in TemplateList(files, le) ensures exists f :: f in files && IsTemplateFile(f) && f.template == t {
      assert t in multiset(TemplatesOf(shown));
      var i :| 0 <= i < |shown| && TemplatesOf(shown)[i] == t;
      assert shown[i] in files;
    }
  }

  predicate IsMetadataFile(f: File)
  {
    EndsWith(f.path, "metadata.json")
  }

  /** `rawMetadata.categories`: those of the first metadata file, or none. */
  function MetadataCategories(files: seq<File>): (r: seq<Category>)
    ensures (forall i :: 0 <= i < |files| ==> !IsMetadataFile(files[i])) ==> r == []
    ensures (exists i :: 0 <= i < |files| && IsMetadataFile(files[i])) ==>
      exists k :: 0 <= k < |files| && IsMetadataFile(files[k]) && r == files[k].categories &&
                  forall j :: 0 <= j < k ==> !IsMetadataFile(files[j])
  {
    match FirstIndex(files, IsMetadataFile)
    case Some(k) => files[k].categories
    case None => []
  }

  function BySortOrder(): (Category, Category) -> bool
  {
    (a: Category, b: Category) => a.sortOrder <= b.sortOrder
  }

  /** The id-to-name map filled by `map.set` over the categories in order. */
  function NamesOf(cs: seq<Category>): (m: map<int, string>)
    ensures forall id :: id in m <==> exists i :: 0 <= i < |cs| && cs[i].id == id
    decreases |cs|
  {
    if cs == [] then map[]
    else
      var n := |cs| - 1;
      var m := NamesOf(cs[..n]);
      assert forall i :: 0 <= i < n ==> cs[..n][i] == cs[i];
      m[cs[n].id := cs[n].name]
  }

  /** A later category with the same id overwrites an earlier one. */
  lemma {:induction false} NamesLastWins(cs: seq<Category>, k: nat)
    requires k < |cs| && forall j :: k < j < |cs| ==> cs[j].id != cs[k].id
    ensures cs[k].id in NamesOf(cs) && NamesOf(cs)[cs[k].id] == cs[k].name
    decreases |cs|
  {
    var n := |cs| - 1;
    assert NamesOf(cs) == NamesOf(cs[..n])[cs[n].id := cs[n].name];
    if k < n {
      var front := cs[..n];
      assert front[k] == cs[k];
      assert forall j :: k < j < |front| ==> front[j] == cs[j];
      NamesLastWins(front, k);
    }
  }

  /** The gallery's state: the metadata category array, which the
      `categories` memo sorts in place, and the map built after it. */
  class Gallery {
    var categories: seq<Category>
    var names: map<int, string>

    /** The `categories` memo: `sort` on the metadata array itself. */
    method SortCategories()
      modifies this
      ensures categories == SortBy(old(categories), BySortOrder())
      ensures names == old(names)
    {
      categories := SortBy(categories, BySortOrder());
    }

    /** The `categoriesMap` memo: one `map.set` per category, in array order. */
    method BuildNames()
      modifies this
      ensures names == NamesOf(categories)
      ensures categories == old(categories)
    {
      var m: map<int, string> := map[];
      var i := 0;
      while i < |categories|
        invariant 0 <= i <= |categories|
        invariant m == NamesOf(categories[..i])
      {
        assert categories[..i + 1][..i] == categories[..i];
        m := m[categories[i].id := categories[i].name];
        i := i + 1;
      }
      assert categories[..i] == categories;
      names := m;
    }

    /** Mounting: the memos run in order, so the map is built over the
        sorted array. */
    constructor (files: seq<File>)
      ensures categories == SortBy(MetadataCategories(files), BySortOrder())
      ensures names == NamesOf(categories)
    {
      categories := MetadataCategories(files);
      names := map[];
      new;
      SortCategories();
      BuildNames();
    }
  }

  /** After sorting, the categories are ordered by `sort_order` and are the
      same categories. */
  lemma SortedCategories(cs: seq<Category>)
    ensures SortedBy(SortBy(cs, BySortOrder()), BySortOrder())
    ensures multiset(SortBy(cs, BySortOrder())) == multiset(cs)
  {
    SortBySorted(cs, BySortOrder());
  }

  /** The category select: all, or the number of a category id. */
  datatype Choice = AllCategories | CategoryId(id: int)

  /** Optional chaining: a missing field matches nothing. */
  predicate FieldMatches(field: Option<string>, search: string)
  {
    field.Some? && Contains(ToLower(field.value), ToLower(search))
  }

  function Matches(search: string, choice: Choice): Template -> bool
  {
    (t: Template) =>
      (FieldMatches(t.name, search) || FieldMatches(t.description, search)) &&
      (choice.AllCategories? || (t.categories.Some? && choice.id in t.categories.value))
  }

  /** `filteredTemplates`: the matching templates, kept in list order. */
  function Filtered(templates: seq<Template>, search: string, choice: Choice): (r: seq<Template>)
    ensures |r| <= |templates|
    ensures forall i :: 0 <= i < |r| ==> r[i] in templates && Matches(search, choice)(r[i])
    ensures IsSubsequence(r, templates)
  {
    FilterIsSubsequence(templates, Matches(search, choice));
    Filter(templates, Matches(search, choice))
  }

  /** A template is shown exactly when it is in the list and its name or
      description contains the search term, ignoring case, and it carries the
      chosen category. */
  lemma FilteredIff(templates: seq<Template>, search: string, choice: Choice, t: Template)
    ensures t in Filtered(templates, search, choice) <==>
      t in templates &&
      (FieldMatches(t.name, search) || FieldMatches(t.description, search)) &&
      (choice.AllCategories? || (t.categories.Some? && choice.id in t.categories.value))
  {
    if t in templates && Matches(search, choice)(t) {
      FilterKeepsAll(templates, Matches(search, choice), t);
    }
  }

  lemma ContainsEmpty(s: string)
    ensures Contains(s, "")
  {
  }

  /** With an empty search and all categories, exactly the templates having
      a name or a description are shown: one with neither never is. */
  lemma EmptySearchShowsDescribed(templates: seq<Template>, t: Template)
    ensures t in Filtered(templates, "", AllCategories) <==> t in templates && (t.name.Some? || t.description.Some?)
    ensures t.name.None? && t.description.None? ==> forall search, choice :: t !in Filtered(templates, search, choice)
  {
    if t.name.Some? { ContainsEmpty(ToLower(t.name.value)); }
    if t.description.Some? { ContainsEmpty(ToLower(t.description.value)); }
    FilteredIff(templates, "", AllCategories, t);
  }

  /** The badges of a card: the names of at most two categories, then the
      number of the others. A missing or empty name shows as `Unknown`. */
  function Badges(t: Template, names: map<int, string>): (r: seq<string>)
    ensures var n := |t.categories.GetOr([])|;
      |r| == (if n <= 2 then n else 3) &&
      (n > 2 ==> r[2] == "+" + IntToString(n - 2)) &&
      forall i :: 0 <= i < |r| && i < 2 ==>
        var id := t.categories.value[i];
        r[i] == if id in names && names[id] != "" then names[id] else "Unknown"
  {
    var cs := t.categories.GetOr([]);
    var shown := if |cs| <= 2 then cs else cs[..2];
    BadgeNames(shown, names) + (if |cs| > 2 then ["+" + IntToString(|cs| - 2)] else [])
  }

  function BadgeNames(ids: seq<int>, names: map<int, string>): (r: seq<string>)
    ensures |r| == |ids|
    ensures forall i :: 0 <= i < |ids| ==> r[i] == if ids[i] in names && names[ids[i]] != "" then names[ids[i]] else "Unknown"
  {
    if ids == [] then []
    else [if ids[0] in names && names[ids[0]] != "" then names[ids[0]] else "Unknown"] + BadgeNames(ids[1..], names)
  }

  /** The note's literal `\n` and `\r\n` escapes become line breaks,
      scanned from the left as a global regular expression replace does. */
  function Breaks(s: string): (r: string)
    ensures s != [] ==> r != [] && (r[0] == s[0] || r[0] == '<')
  {
    if s == [] then []
    else if |s| >= 4 && s[..4] == ['\\', 'r', '\\', 'n'] then "<br />" + Breaks(s[4..])
    else if |s| >= 2 && s[..2] == ['\\', 'n'] then "<br />" + Breaks(s[2..])
    else [s[0]] + Breaks(s[1..])
  }

  predicate NoEscapedNewline(s: string)
  {
    forall i :: 0 <= i < |s| - 1 ==> !(s[i] == '\\' && s[i + 1] == 'n')
  }

  lemma BrNoEscape(rest: string)
    requires NoEscapedNewline(rest)
    ensures NoEscapedNewline("<br />" + rest)
  {
    var r := "<br />" + rest;
    forall i | 0 <= i < |r| - 1 ensures !(r[i] == '\\' && r[i + 1] == 'n') {
      if i >= 6 { assert r[i] == rest[i - 6] && r[i + 1] == rest[i - 5]; }
    }
  }

  /** After the replacement no escaped newline is left. */
  lemma {:induction false} BreaksLeaveNoEscape(s: string)
    ensures NoEscapedNewline(Breaks(s))
    decreases |s|
  {
    if s == [] {
    } else if |s| >= 4 && s[..4] == ['\\', 'r', '\\', 'n'] {
      BreaksLeaveNoEscape(s[4..]);
      BrNoEscape(Breaks(s[4..]));
    } else if |s| >= 2 && s[..2] == ['\\', 'n'] {
      BreaksLeaveNoEscape(s[2..]);
      BrNoEscape(Breaks(s[2..]));
    } else {
      var rest := Breaks(s[1..]);
      BreaksLeaveNoEscape(s[1..]);
      var r := [s[0]] + rest;
      forall i | 0 <= i < |r| - 1 ensures !(r[i] == '\\' && r[i + 1] == 'n') {
        if i == 0 {
          if s[0] == '\\' {
            assert |s| >= 2 ==> s[..2] == [s[0], s[1]];
            assert rest[0] == s[1] || rest[0] == '<';
          }
        } else {
          assert r[i] == rest[i - 1] && r[i + 1] == rest[i];
        }
      }
    }
  }

  /** Text without backslashes is left alone. */
  lemma {:induction false} BreaksKeepPlainText(s: string)
    requires '\\' !in s
    ensures Breaks(s) == s
    decreases |s|
  {
    if s != [] {
      assert s[0] != '\\';
      assert '\\' !in s[1..] by { forall i | 0 <= i < |s| - 1 ensures s[1..][i] != '\\' { assert s[1..][i] == s[i + 1]; } }
      BreaksKeepPlainText(s[1..]);
      assert |s| >= 4 ==> s[..4][0] == s[0];
      assert |s| >= 2 ==> s[..2][0] == s[0];
      assert Breaks(s) == [s[0]] + Breaks(s[1..]);
      assert s == [s[0]] + s[1..];
    }
  }

  const CodeOpen: string := "<code class=\"bg-black/10 dark:bg-white/10 px-1 py-0.5 rounded text-xs\">"
  const CodeClose: string := "</code>"

  /** Each backtick pair around at least one other character becomes a code
      element; a backtick without such a partner is kept. */
  function CodeSpans(s: string): string
    decreases |s|
  {
    if s == [] then []
    else if s[0] == '`' then
      match IndexOf(s[1..], '`')
      case Some(k) =>
        if k > 0 then CodeOpen + s[1..1 + k] + CodeClose + CodeSpans(s[k + 2..])
        else [s[0]] + CodeSpans(s[1..])
      case None => [s[0]] + CodeSpans(s[1..])
    else [s[0]] + CodeSpans(s[1..])
  }

  lemma {:induction false} FirstAtEnd(x: string, c: char)
    requires c !in x
    ensures IndexOf(x + [c], c) == Some(|x|)
  {
    if x != [] {
      assert (x + [c])[1..] == x[1..] + [c];
      FirstAtEnd(x[1..], c);
    }
  }

  /** A backtick-quoted text becomes one code element holding it. */
  lemma CodeSpanWraps(x: string)
    requires x != [] && '`' !in x
    ensures CodeSpans("`" + x + "`") == CodeOpen + x + CodeClose
  {
    var s := "`" + x + "`";
    assert s[1..] == x + "`";
    FirstAtEnd(x, '`');
    assert s[1..1 + |x|] == x;
    assert s[|x| + 2..] == [];
  }

  /** Text without backticks is left alone. */
  lemma {:induction false} CodeSpansKeepPlainText(s: string)
    requires '`' !in s
    ensures CodeSpans(s) == s
    decreases |s|
  {
    if s != [] {
      assert '`' !in s[1..] by { forall i | 0 <= i < |s| - 1 ensures s[1..][i] != '`' { assert s[1..][i] == s[i + 1]; } }
      CodeSpansKeepPlainText(s[1..]);
      assert s == [s[0]] + s[1..];
    }
  }

  /** `NoteBox`: line breaks first, then code spans. */
  function NoteHtml(text: string): string
  {
    CodeSpans(Breaks(text))
  }

  lemma NoteHtmlPlain(text: string)
    requires '\\' !in text && '`' !in text
    ensures NoteHtml(text) == text
  {
    BreaksKeepPlainText(text);
    CodeSpansKeepPlainText(text);
  }

  const ScriptBase: string := "https://github.com/community-scripts/ProxmoxVE/raw/main/"

  /** The command the copy button puts on the clipboard. */
  function CopiedCommand(script: string): (r: string)
    ensures |r| == 25 + |ScriptBase| + |script|
    ensures r[..20] == "bash -c \"$(wget -qLO"
    ensures r[|r| - |script| - 2..] == script + ")\""
  {
    "bash -c \"$(wget -qLO - " + ScriptBase + script + ")\""
  }

  /** The command shown on the page AS WRITTEN: its option letters are the
      Cyrillic EL and O, which look like `LO`. */
  function DisplayedCommandAsWritten(script: string): string
  {
    "bash -c \"$(wget -q\U{041B}\U{041E} - " + ScriptBase + script + ")\""
  }

  /** What the page evidently means to show: the same command with the
      ASCII option letters. */
  function DisplayedCommand(script: string): string
  {
    "bash -c \"$(wget -qLO - " + ScriptBase + script + ")\""
  }

  /** As written, the shown command differs from the copied one for every
      script, exactly at the two option letters, which are not ASCII. */
  lemma DisplayedDiffersFromCopied(script: string)
    ensures |DisplayedCommandAsWritten(script)| == |CopiedCommand(script)|
    ensures DisplayedCommandAsWritten(script)[18] == '\U{041B}' && CopiedCommand(script)[18] == 'L'
    ensures DisplayedCommandAsWritten(script)[19] == '\U{041E}' && CopiedCommand(script)[19] == 'O'
    ensures forall i :: 0 <= i < |CopiedCommand(script)| && i != 18 && i != 19 ==>
      DisplayedCommandAsWritten(script)[i] == CopiedCommand(script)[i]
    ensures DisplayedCommandAsWritten(script) != CopiedCommand(script)
  {
    var tail := " - " + ScriptBase + script + ")\"";
    var p, q := "bash -c \"$(wget -q\U{041B}\U{041E}", "bash -c \"$(wget -qLO";
    assert DisplayedCommandAsWritten(script) == p + tail;
    assert CopiedCommand(script) == q + tail;
    SameTail(p, q, tail);
  }

  /** Two strings with heads of one length and a common tail agree at every
      index of the tail. */
  lemma SameTail(p: string, q: string, tail: string)
    requires |p| == |q|
    ensures |p + tail| == |q + tail|
    ensures forall i :: |p| <= i < |p + tail| ==> (p + tail)[i] == (q + tail)[i]
  {
  }

  /** Corrected, the page shows exactly what the copy button copies, and
      the option letters are the ASCII `L` and `O`. */
  lemma DisplayedIsCopied(script: string)
    ensures DisplayedCommand(script) == CopiedCommand(script)
    ensures DisplayedCommand(script)[18] == 'L' && DisplayedCommand(script)[19] == 'O'
  {
  }
}
