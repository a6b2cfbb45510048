/** The top bar (`Header`): renaming the project, starting a new one, and the file
    name and payload of an export. */
module Header {
  import opened Wrappers
  import opened Pieces
  import opened Store

  /** The characters JavaScript's `trim` strips and its `\s` matches: the
      white-space characters and the line terminators of ECMAScript. */
  predicate IsSpace(c: char) {
    || ('\U{9}' <= c <= '\U{D}') || c == ' ' || c == '\U{A0}' || c == '\U{1680}'
    || ('\U{2000}' <= c <= '\U{200A}') || c == '\U{2028}' || c == '\U{2029}'
    || c == '\U{202F}' || c == '\U{205F}' || c == '\U{3000}' || c == '\U{FEFF}'
  }

  predicate NoSpace(s: string) {
    forall i :: 0 <= i < |s| ==> !IsSpace(s[i])
  }

  /** The number of white-space characters `s` starts with. */
  function LeadingSpace(s: string): (n: nat)
    ensures n <= |s|
    ensures forall k :: 0 <= k < n ==> IsSpace(s[k])
    ensures n < |s| ==> !IsSpace(s[n])
  {
    if s == [] || !IsSpace(s[0]) then 0
    else
      var m := LeadingSpace(s[1..]);
      assert forall k :: 0 < k <= m ==> s[k] == s[1..][k - 1];
      1 + m
  }

  /** The properties above determine the count. */
  lemma LeadingSpaceUnique(s: string, n: nat)
    requires n <= |s|
    requires forall k :: 0 <= k < n ==> IsSpace(s[k])
    requires n < |s| ==> !IsSpace(s[n])
    ensures LeadingSpace(s) == n
  {
    var m := LeadingSpace(s);
    assert m < |s| ==> !IsSpace(s[m]);
    assert n < |s| ==> !IsSpace(s[n]);
  }

  /** The length of `s` without its trailing white space. */
  function NonSpaceEnd(s: string): (n: nat)
    ensures n <= |s|
    ensures forall k :: n <= k < |s| ==> IsSpace(s[k])
    ensures n > 0 ==> !IsSpace(s[n - 1])
  {
    if s == [] || !IsSpace(s[|s| - 1]) then |s|
    else
      var m := NonSpaceEnd(s[..|s| - 1]);
      assert forall k :: 0 <= k < |s| - 1 ==> s[k] == s[..|s| - 1][k];
      m
  }

  /** `trimStart`: the suffix after the leading white space. */
  function TrimStart(s: string): (r: string)
    ensures |r| <= |s| && r == s[|s| - |r|..]
    ensures forall i :: 0 <= i < |s| - |r| ==> IsSpace(s[i])
    ensures r == [] || !IsSpace(r[0])
  {
    s[LeadingSpace(s)..]
  }

  /** `trimEnd`: the prefix before the trailing white space. */
  function TrimEnd(s: string): (r: string)
    ensures |r| <= |s| && r == s[..|r|]
    ensures forall i :: |r| <= i < |s| ==> IsSpace(s[i])
    ensures r == [] || !IsSpace(r[|r| - 1])
  {
    s[..NonSpaceEnd(s)]
  }

  /** `trim` */
  function Trim(s: string): string {
    TrimEnd(TrimStart(s))
  }

  /** The trimmed string is a slice of the original with white space, and only
      white space, cut from both ends, and it neither starts nor ends with white
      space. */
  lemma TrimSlice(s: string)
    ensures var r, i := Trim(s), |s| - |TrimStart(s)|;
      && (r == [] || (!IsSpace(r[0]) && !IsSpace(r[|r| - 1])))
      && i + |r| <= |s| && r == s[i..i + |r|]
      && (forall k :: 0 <= k < i ==> IsSpace(s[k]))
      && (forall k :: i + |r| <= k < |s| ==> IsSpace(s[k]))
  {
    var i := LeadingSpace(s);
    var t := s[i..];
    var m := NonSpaceEnd(t);
    assert t[..m] == s[i..i + m];
    forall k | i + m <= k < |s| ensures IsSpace(s[k]) {
      assert s[k] == t[k - i];
    }
  }

  /** A string trims to nothing exactly when it is all white space. */
  lemma TrimBlank(s: string)
    ensures Trim(s) == [] <==> forall i :: 0 <= i < |s| ==> IsSpace(s[i])
  {
    var t := TrimStart(s);
    assert Trim(s) == [] ==> t == [];
    if Trim(s) != [] {
      assert s[|s| - |t|] == t[0];
    }
  }

  lemma {:induction false} TrimStartIdle(s: string)
    requires s == [] || !IsSpace(s[0])
    ensures TrimStart(s) == s
  {
  }

  lemma {:induction false} TrimEndIdle(s: string)
    requires s == [] || !IsSpace(s[|s| - 1])
    ensures TrimEnd(s) == s
  {
  }

  /** Trimming twice is trimming once. */
  lemma TrimIdempotent(s: string)
    ensures Trim(Trim(s)) == Trim(s)
  {
    var r := Trim(s);
    TrimSlice(s);
    TrimStartIdle(r);
    TrimEndIdle(r);
  }

  /** `replace(/\s+/g, '_')`: every maximal run of white space becomes one `_`. */
  function ReplaceSpaceRuns(s: string): (r: string)
    ensures |r| <= |s|
    ensures NoSpace(r)
    decreases |s|
  {
    if s == [] then []
    else if IsSpace(s[0]) then "_" + ReplaceSpaceRuns(TrimStart(s))
    else [s[0]] + ReplaceSpaceRuns(s[1..])
  }

  /** A string without white space is left alone. */
  lemma {:induction false} ReplaceNoSpace(s: string)
    requires NoSpace(s)
    ensures ReplaceSpaceRuns(s) == s
    decreases |s|
  {
    if s != [] {
      assert NoSpace(s[1..]) by {
        forall i | 0 <= i < |s[1..]| ensures !IsSpace(s[1..][i]) {
          assert s[1..][i] == s[i + 1];
        }
      }
      ReplaceNoSpace(s[1..]);
    }
  }

  /** Replacing twice is replacing once. */
  lemma ReplaceIdempotent(s: string)
    ensures ReplaceSpaceRuns(ReplaceSpaceRuns(s)) == ReplaceSpaceRuns(s)
  {
    ReplaceNoSpace(ReplaceSpaceRuns(s));
  }

  /** The replacement works run by run: after a part that does not end in white
      space the rest is replaced separately. */
  lemma {:induction false} ReplaceAppend(a: string, b: string)
    requires a == [] || !IsSpace(a[|a| - 1])
    ensures ReplaceSpaceRuns(a + b) == ReplaceSpaceRuns(a) + ReplaceSpaceRuns(b)
    decreases |a|
  {
    if a == [] {
      assert a + b == b;
    } else if IsSpace(a[0]) {
      var t, ab := TrimStart(a), a + b;
      TrimStartAppend(a, b);
      assert t[|t| - 1] == a[|a| - 1];
      ReplaceAppend(t, b);
      assert ab[0] == a[0];
      assert ReplaceSpaceRuns(ab) == "_" + ReplaceSpaceRuns(t + b);
    } else {
      var ab := a + b;
      assert ab[0] == a[0] && ab[1..] == a[1..] + b;
      assert a[1..] != [] ==> a[1..][|a| - 2] == a[|a| - 1];
      ReplaceAppend(a[1..], b);
      assert ReplaceSpaceRuns(ab) == [a[0]] + ReplaceSpaceRuns(a[1..] + b);
    }
  }

  lemma TrimStartAppend(a: string, b: string)
    requires a != [] && !IsSpace(a[|a| - 1])
    ensures TrimStart(a) != []
    ensures TrimStart(a + b) == TrimStart(a) + b
  {
    var n := LeadingSpace(a);
    assert n < |a|;
    var ab := a + b;
    assert forall k :: 0 <= k <= n ==> ab[k] == a[k];
    LeadingSpaceUnique(ab, n);
    assert ab[n..] == a[n..] + b;
  }

  /** A non-empty run of white space between two non-space characters becomes
      exactly one `_`. */
  lemma RunBecomesUnderscore(a: string, w: string, b: string)
    requires a == [] || !IsSpace(a[|a| - 1])
    requires w != [] && forall i :: 0 <= i < |w| ==> IsSpace(w[i])
    requires b == [] || !IsSpace(b[0])
    ensures ReplaceSpaceRuns(a + (w + b)) == ReplaceSpaceRuns(a) + ("_" + ReplaceSpaceRuns(b))
  {
    var ra, rb := ReplaceSpaceRuns(a), ReplaceSpaceRuns(b);
    ReplaceAppend(a, w + b);
    LeadingRun(w, b);
    assert ReplaceSpaceRuns(a + (w + b)) == ra + ("_" + rb);
  }

  lemma LeadingRun(w: string, b: string)
    requires w != [] && forall i :: 0 <= i < |w| ==> IsSpace(w[i])
    requires b == [] || !IsSpace(b[0])
    ensures ReplaceSpaceRuns(w + b) == "_" + ReplaceSpaceRuns(b)
  {
    assert (w + b)[0] == w[0];
    TrimStartRun(w, b);
  }

  lemma TrimStartRun(w: string, b: string)
    requires forall i :: 0 <= i < |w| ==> IsSpace(w[i])
    requires b == [] || !IsSpace(b[0])
    ensures TrimStart(w + b) == b
  {
    var wb := w + b;
    assert forall k :: 0 <= k < |w| ==> wb[k] == w[k];
    assert |w| < |wb| ==> wb[|w|] == b[0];
    LeadingSpaceUnique(wb, |w|);
    assert wb[|w|..] == b;
  }

  /** The download name, `${projectName.replace(/\s+/g, '_')}.woodcraft`. */
  function ExportFileName(projectName: string): (f: string)
    ensures NoSpace(f)
    ensures |f| <= |projectName| + 10
    ensures |f| >= 10 && f[|f| - 10..] == ".woodcraft"
  {
    ReplaceSpaceRuns(projectName) + ".woodcraft"
  }

  /** A name of two words exports with an underscore between them. */
  lemma ExportFileNameExample()
    ensures ExportFileName("Shop Bench") == "Shop_Bench" + ".woodcraft"
  {
    ReplaceExample();
  }

  lemma ReplaceExample()
    ensures ReplaceSpaceRuns("Shop Bench") == "Shop_Bench"
  {
    var shop, bench := "Shop", "Bench";
    WordsKept(shop, bench);
    assert "Shop Bench" == shop + (" " + bench);
    RunBecomesUnderscore(shop, " ", bench);
    assert shop + ("_" + bench) == "Shop_Bench";
  }

  lemma WordsKept(shop: string, bench: string)
    requires shop == "Shop" && bench == "Bench"
    ensures ReplaceSpaceRuns(shop) == shop && ReplaceSpaceRuns(bench) == bench
  {
    ReplaceNoSpace(shop);
    ReplaceNoSpace(bench);
  }

  /** The exported object; `exportedAt` is the clock's ISO time stamp. */
  datatype ExportPayload = ExportPayload(name: string, pieces: seq<Piece>, exportedAt: string, version: string)

  const ExportVersion: string := "1.0.0"

  /** `handleExportProject` without the download: what it would save and under
      which name. Reads the store, changes nothing. */
  method ExportProject(store: ProjectStore, exportedAt: string) returns (fileName: string, payload: ExportPayload)
    ensures payload == ExportPayload(store.projectName, store.pieces, exportedAt, ExportVersion)
    ensures fileName == ExportFileName(store.projectName) && NoSpace(fileName)
  {
    payload := ExportPayload(store.projectName, store.pieces, exportedAt, ExportVersion);
    fileName := ExportFileName(store.projectName);
  }

  /** The name a submit stores: the trimmed draft, or the old name when the
      draft is blank. */
  function SubmittedName(s: Project, tempName: string): Project {
    if Trim(tempName) != [] then s.SetProjectName(Trim(tempName)) else s
  }

  lemma SubmittedNameEffect(s: Project, tempName: string)
    ensures (forall i :: 0 <= i < |tempName| ==> IsSpace(tempName[i])) ==> SubmittedName(s, tempName) == s
    ensures !(forall i :: 0 <= i < |tempName| ==> IsSpace(tempName[i])) ==>
      var r := SubmittedName(s, tempName);
      && r == s.(projectName := r.projectName)
      && r.projectName != [] && r.projectName == Trim(tempName)
      && Trim(r.projectName) == r.projectName
  {
    TrimBlank(tempName);
    TrimIdempotent(tempName);
  }

  /** `handleNewProject`: with pieces on the board the user is asked first and a
      refusal changes nothing. */
  function NewProject(s: Project, confirmed: bool): Project {
    if |s.pieces| > 0 && !confirmed then s else s.ClearProject()
  }

  lemma NewProjectEffect(s: Project, confirmed: bool)
    ensures |s.pieces| == 0 ==> NewProject(s, confirmed) == s.ClearProject()
    ensures |s.pieces| > 0 ==> NewProject(s, confirmed) == if confirmed then s.ClearProject() else s
    ensures Consistent(s) ==> Consistent(NewProject(s, confirmed))
    ensures |s.pieces| == 0 || confirmed ==>
      var r := NewProject(s, confirmed);
      r.pieces == [] && r.selectedPieceId == None && r.projectName == "Untitled Project"
  {
  }

  /** The rename field's local state: whether it is open and the draft name. */
  class NameEditor {
    var isEditing: bool
    var tempName: string

    /** `useState(false)`, `useState(projectName)` */
    constructor (projectName: string)
      ensures !isEditing && tempName == projectName
    {
      isEditing := false;
      tempName := projectName;
    }

    /** Clicking the name opens the field on the current name. */
    method BeginEditing(store: ProjectStore)
      modifies this
      ensures isEditing && tempName == store.projectName
    {
      tempName := store.projectName;
      isEditing := true;
    }

    /** Typing in the field. */
    method SetTempName(value: string)
      modifies this`tempName
      ensures tempName == value
    {
      tempName := value;
    }

    /** `handleNameSubmit` (Enter or blur): stores the trimmed draft unless it is
      blank, and closes the field either way. */
    method HandleNameSubmit(store: ProjectStore)
      modifies this`isEditing, store`projectName
      ensures !isEditing && tempName == old(tempName)
      ensures store.State() == SubmittedName(old(store.State()), tempName)
    {
      var trimmed := Trim(tempName);
      if trimmed != [] {
        store.SetProjectName(trimmed);
      }
      isEditing := false;
    }
  }

  /** Opening the field and submitting it unchanged keeps a name that is already
      trimmed and not blank. */
  method EditWithoutTyping(store: ProjectStore, editor: NameEditor)
    requires Trim(store.projectName) == store.projectName
    modifies editor, store`projectName
    ensures store.State() == old(store.State()) && !editor.isEditing
  {
    editor.BeginEditing(store);
    editor.HandleNameSubmit(store);
  }

  method HandleNewProject(store: ProjectStore, confirmed: bool)
    modifies store`pieces, store`selectedPieceId, store`projectName
    ensures store.State() == NewProject(old(store.State()), confirmed)
  {
    if |store.pieces| > 0 {
      if confirmed {
        store.ClearProject();
      }
    } else {
      store.ClearProject();
    }
  }
}
