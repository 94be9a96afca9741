/** The template picker's view logic (extensions/gitignore/src/gitignore.tsx):
    how the catalog is split by the selection, which header item is shown,
    and which actions each item carries. */
module Gitignore {
  import opened Wrappers
  import opened Seqs

  /** A catalog entry: a template named `name` at `path`, optionally in a
      `folder` of the catalog. */
  datatype GitignoreFile = GitignoreFile(id: string, path: string, name: string, folder: Option<string>)

  /** The three export actions; each hands its list of templates to the
      clipboard, the foreground app or the preview screen. */
  datatype ExportAction =
    | CopyToClipboard(files: seq<GitignoreFile>)
    | PasteToApp(files: seq<GitignoreFile>)
    | Preview(files: seq<GitignoreFile>)

  function ExportTitle(a: ExportAction): string
  {
    match a
    case CopyToClipboard(_) => "Copy to Clipboard"
    case PasteToApp(_) => "Paste to App"
    case Preview(_) => "Preview"
  }

  /** The copy, paste and preview actions, in that order, all over `files`. */
  function ExportActions(files: seq<GitignoreFile>): (r: seq<ExportAction>)
    ensures |r| == 3 && r[0].CopyToClipboard? && r[1].PasteToApp? && r[2].Preview?
    ensures ExportTitle(r[0]) == "Copy to Clipboard" && ExportTitle(r[1]) == "Paste to App"
    ensures ExportTitle(r[2]) == "Preview"
    ensures forall a :: a in r ==> a.files == files
  {
    [CopyToClipboard(files), PasteToApp(files), Preview(files)]
  }

  // ---------------------------------------------------------------------------
  // The selection split
  // ---------------------------------------------------------------------------

  /** The catalog entries whose id is selected, in catalog order. */
  function SelectedFiles(files: seq<GitignoreFile>, selectedIds: set<string>): (r: seq<GitignoreFile>)
    ensures forall i :: 0 <= i < |r| ==> r[i] in files && r[i].id in selectedIds
    ensures forall i :: 0 <= i < |files| && files[i].id in selectedIds ==> files[i] in r
  {
    Filter(files, (f: GitignoreFile) => f.id in selectedIds)
  }

  /** The catalog entries whose id is not selected, in catalog order. */
  function UnselectedFiles(files: seq<GitignoreFile>, selectedIds: set<string>): (r: seq<GitignoreFile>)
    ensures forall i :: 0 <= i < |r| ==> r[i] in files && r[i].id !in selectedIds
    ensures forall i :: 0 <= i < |files| && files[i].id !in selectedIds ==> files[i] in r
  {
    Filter(files, (f: GitignoreFile) => f.id !in selectedIds)
  }

  /** Every catalog entry lands in exactly one of the two lists, and both keep
      the catalog's order. */
  lemma SelectionPartition(files: seq<GitignoreFile>, selectedIds: set<string>)
    ensures multiset(SelectedFiles(files, selectedIds)) + multiset(UnselectedFiles(files, selectedIds)) == multiset(files)
    ensures IsSubsequence(SelectedFiles(files, selectedIds), files)
    ensures IsSubsequence(UnselectedFiles(files, selectedIds), files)
  {
    var sel := (f: GitignoreFile) => f.id in selectedIds;
    var unsel := (f: GitignoreFile) => f.id !in selectedIds;
    FilterComplement(files, sel, unsel);
    FilterIsSubsequence(files, sel);
    FilterIsSubsequence(files, unsel);
  }

  // ---------------------------------------------------------------------------
  // The header item
  // ---------------------------------------------------------------------------

  datatype Header =
    | CreateFromSelection(title: string, actions: seq<ExportAction>)
    | Refresh(title: string, subtitle: Option<string>)
    | NoHeader

  /** The first section's item. `lastUpdated` is the catalog's last-updated
      time as `toLocaleString` renders it. */
  function HeaderItem(selected: seq<GitignoreFile>, loading: bool, lastUpdated: Option<string>): (h: Header)
    ensures h.CreateFromSelection? <==> selected != []
    ensures h.Refresh? <==> selected == [] && !loading
    ensures h.NoHeader? <==> selected == [] && loading
    ensures h.CreateFromSelection? ==>
      h.title == "Create .gitignore From Selection" && h.actions == ExportActions(selected)
    ensures h.Refresh? ==> h.title == "Refresh" && (h.subtitle.Some? <==> lastUpdated.Some?)
    ensures h.Refresh? && lastUpdated.Some? ==> h.subtitle.value == "Last updated " + lastUpdated.value
  {
    if |selected| > 0 then
      CreateFromSelection("Create .gitignore From Selection", ExportActions(selected))
    else if !loading then
      Refresh("Refresh", if lastUpdated.Some? then Some("Last updated " + lastUpdated.value) else None)
    else
      NoHeader
  }

  // ---------------------------------------------------------------------------
  // GitignoreList: the items of one section
  // ---------------------------------------------------------------------------

  datatype ItemAction =
    | Toggle(title: string, target: GitignoreFile)
    | Export(exported: ExportAction)

  /** A template's list item; `checked` is the checkmark icon of the
      Selected section (the Available section shows a circle). */
  datatype GitignoreItem = GitignoreItem(
    key: string,
    title: string,
    checked: bool,
    keywords: Option<seq<string>>,
    accessoryTitle: Option<string>,
    actions: seq<ItemAction>)

  /** The item for `f` in the Selected (`selected`) or Available section. */
  function ItemFor(f: GitignoreFile, selected: bool): (item: GitignoreItem)
    ensures item.key == f.path && item.title == f.name && item.checked == selected
    ensures item.accessoryTitle == f.folder
    ensures item.keywords.Some? <==> f.folder.Some?
    ensures f.folder.Some? ==> item.keywords.value == [f.folder.value]
    ensures |item.actions| == 4
    ensures item.actions[0] == Toggle(if selected then "Deselect" else "Select", f)
    ensures item.actions[1..] == [Export(CopyToClipboard([f])), Export(PasteToApp([f])), Export(Preview([f]))]
  {
    var keywords := if f.folder.Some? then Some([f.folder.value]) else None;
    var exports := ExportActions([f]);
    GitignoreItem(f.path, f.name, selected, keywords, f.folder,
                  [Toggle(if selected then "Deselect" else "Select", f),
                   Export(exports[0]), Export(exports[1]), Export(exports[2])])
  }

  /** One item per template, in the order given. */
  function GitignoreList(files: seq<GitignoreFile>, selected: bool): (items: seq<GitignoreItem>)
    ensures |items| == |files|
    ensures forall i :: 0 <= i < |files| ==> items[i] == ItemFor(files[i], selected)
  {
    if files == [] then [] else [ItemFor(files[0], selected)] + GitignoreList(files[1..], selected)
  }

  /** The templates the toggle actions of `actions` act on. */
  function TogglesOf(actions: seq<ItemAction>): seq<GitignoreFile>
  {
    if actions == [] then []
    else (if actions[0].Toggle? then [actions[0].target] else []) + TogglesOf(actions[1..])
  }

  /** The templates the toggle actions of a section act on, item by item. */
  function ToggleTargets(items: seq<GitignoreItem>): seq<GitignoreFile>
  {
    if items == [] then [] else TogglesOf(items[0].actions) + ToggleTargets(items[1..])
  }

  /** Each item's only toggle acts on that item's own template, so a
      section's toggles act on its templates, each once and in order. */
  lemma {:induction false} ToggleTargetsOfList(files: seq<GitignoreFile>, selected: bool)
    ensures ToggleTargets(GitignoreList(files, selected)) == files
  {
    if files != [] {
      var item := ItemFor(files[0], selected);
      assert TogglesOf(item.actions[3..]) == [];
      assert TogglesOf(item.actions[2..]) == [];
      assert TogglesOf(item.actions[1..]) == [];
      assert TogglesOf(item.actions) == [files[0]];
      ToggleTargetsOfList(files[1..], selected);
      assert GitignoreList(files, selected)[1..] == GitignoreList(files[1..], selected);
    }
  }

  // ---------------------------------------------------------------------------
  // Gitignore: the whole list
  // ---------------------------------------------------------------------------

  /** The rendered list: the header, then the Selected and Available
      sections. Both sections are always present (an array is truthy, even an
      empty one). */
  datatype GitignoreView = GitignoreView(
    isLoading: bool,
    header: Header,
    selectedSection: seq<GitignoreItem>,
    availableSection: seq<GitignoreItem>)

  function GitignoreScreen(files: seq<GitignoreFile>, selectedIds: set<string>, loading: bool,
                           lastUpdated: Option<string>): (v: GitignoreView)
    ensures v.isLoading == loading
    ensures v.header.CreateFromSelection? <==> exists i :: 0 <= i < |files| && files[i].id in selectedIds
    ensures v.header.CreateFromSelection? ==> v.header.actions == ExportActions(SelectedFiles(files, selectedIds))
    ensures v.header.Refresh? <==> !loading && forall i :: 0 <= i < |files| ==> files[i].id !in selectedIds
  {
    var selected := SelectedFiles(files, selectedIds);
    var unselected := UnselectedFiles(files, selectedIds);
    assert selected != [] ==> selected[0] in files;
    GitignoreView(loading, HeaderItem(selected, loading, lastUpdated),
                  GitignoreList(selected, true), GitignoreList(unselected, false))
  }

  /** Across the two sections every catalog entry gets exactly one item with
      a toggle for it. */
  lemma EveryTemplateListedOnce(files: seq<GitignoreFile>, selectedIds: set<string>, loading: bool,
                                lastUpdated: Option<string>)
    ensures var v := GitignoreScreen(files, selectedIds, loading, lastUpdated);
      multiset(ToggleTargets(v.selectedSection)) + multiset(ToggleTargets(v.availableSection)) == multiset(files)
  {
    SelectionPartition(files, selectedIds);
    ToggleTargetsOfList(SelectedFiles(files, selectedIds), true);
    ToggleTargetsOfList(UnselectedFiles(files, selectedIds), false);
  }

  /** Selected items carry a checkmark and a "Deselect" toggle for a selected
      template; Available items carry a "Select" toggle for an unselected one. */
  lemma SectionLabels(files: seq<GitignoreFile>, selectedIds: set<string>, loading: bool,
                      lastUpdated: Option<string>)
    ensures var v := GitignoreScreen(files, selectedIds, loading, lastUpdated);
      && (forall i :: 0 <= i < |v.selectedSection| ==>
            && v.selectedSection[i].checked
            && v.selectedSection[i].actions[0].title == "Deselect"
            && v.selectedSection[i].actions[0].target.id in selectedIds)
      && (forall i :: 0 <= i < |v.availableSection| ==>
            && !v.availableSection[i].checked
            && v.availableSection[i].actions[0].title == "Select"
            && v.availableSection[i].actions[0].target.id !in selectedIds)
  {
  }
}
