/**
 * The client-side prompt store (`usePromptStore`): saved templates, the
 * history of improvement results, and the selected template. Every action
 * replaces one field with a value computed from the old one; the functions
 * below compute those values and the class applies them.
 */
module PromptStore {
  import opened Wrappers

  /** Dates are milliseconds; `number` fields are integers (the store does no arithmetic on them). */
  datatype PromptTemplate = PromptTemplate(
    id: string,
    title: string,
    description: string,
    category: string,
    promptText: string,
    variables: seq<string>,
    createdAt: int,
    updatedAt: int,
    usage: int,
    rating: int,
    isPublic: bool)

  /** `Partial<PromptTemplate>`: `None` is a key the object does not have. */
  datatype TemplatePatch = TemplatePatch(
    id: Option<string>,
    title: Option<string>,
    description: Option<string>,
    category: Option<string>,
    promptText: Option<string>,
    variables: Option<seq<string>>,
    createdAt: Option<int>,
    updatedAt: Option<int>,
    usage: Option<int>,
    rating: Option<int>,
    isPublic: Option<bool>)

  const NoChanges := TemplatePatch(None, None, None, None, None, None, None, None, None, None, None)

  datatype PromptResult = PromptResult(
    id: string,
    originalPrompt: string,
    improvedPrompt: string,
    model: string,
    suggestions: seq<string>,
    score: int,
    createdAt: int)

  /** The history keeps at most this many results. */
  const HistoryLimit := 100

  /** `{ ...t, ...updates }`: every key present in the patch overrides the template's. */
  function Merge(t: PromptTemplate, p: TemplatePatch): (r: PromptTemplate)
    ensures p == NoChanges ==> r == t
    ensures r.id == p.id.GetOr(t.id)
  {
    PromptTemplate(
      p.id.GetOr(t.id),
      p.title.GetOr(t.title),
      p.description.GetOr(t.description),
      p.category.GetOr(t.category),
      p.promptText.GetOr(t.promptText),
      p.variables.GetOr(t.variables),
      p.createdAt.GetOr(t.createdAt),
      p.updatedAt.GetOr(t.updatedAt),
      p.usage.GetOr(t.usage),
      p.rating.GetOr(t.rating),
      p.isPublic.GetOr(t.isPublic))
  }

  /** `templates.filter((t) => t.id !== id)` */
  function RemoveById(s: seq<PromptTemplate>, id: string): (r: seq<PromptTemplate>)
    ensures |r| <= |s|
    ensures forall t :: t in r <==> t in s && t.id != id
  {
    if s == [] then []
    else (if s[0].id == id then [] else [s[0]]) + RemoveById(s[1..], id)
  }

  /** Filtering splits over concatenation, so the templates that stay keep their order. */
  lemma {:induction false} RemoveByIdAppend(a: seq<PromptTemplate>, b: seq<PromptTemplate>, id: string)
    ensures RemoveById(a + b, id) == RemoveById(a, id) + RemoveById(b, id)
  {
    if a != [] {
      assert (a + b)[1..] == a[1..] + b;
      RemoveByIdAppend(a[1..], b, id);
    } else {
      assert a + b == b;
    }
  }

  /** With no template carrying the id, removal changes nothing. */
  lemma {:induction false} RemoveByIdAbsent(s: seq<PromptTemplate>, id: string)
    requires forall i :: 0 <= i < |s| ==> s[i].id != id
    ensures RemoveById(s, id) == s
  {
    if s != [] {
      RemoveByIdAbsent(s[1..], id);
      assert [s[0]] + s[1..] == s;
    }
  }

  /** Removing the same id twice is removing it once. */
  lemma RemoveByIdIdempotent(s: seq<PromptTemplate>, id: string)
    ensures RemoveById(RemoveById(s, id), id) == RemoveById(s, id)
  {
    var r := RemoveById(s, id);
    forall i | 0 <= i < |r| ensures r[i].id != id {
      assert r[i] in r;
    }
    RemoveByIdAbsent(r, id);
  }

  /** `templates.map((t) => t.id === id ? { ...t, ...updates } : t)` */
  function UpdateById(s: seq<PromptTemplate>, id: string, p: TemplatePatch): (r: seq<PromptTemplate>)
    ensures |r| == |s|
    ensures forall i :: 0 <= i < |s| ==> r[i] == if s[i].id == id then Merge(s[i], p) else s[i]
  {
    if s == [] then []
    else [if s[0].id == id then Merge(s[0], p) else s[0]] + UpdateById(s[1..], id, p)
  }

  /**
   * Updating twice with the same patch is updating once: the merged templates
   * either keep the id and absorb the same keys again, or have moved to
   * another id and no longer match.
   */
  lemma UpdateByIdIdempotent(s: seq<PromptTemplate>, id: string, p: TemplatePatch)
    ensures UpdateById(UpdateById(s, id, p), id, p) == UpdateById(s, id, p)
  {
    var once := UpdateById(s, id, p);
    var twice := UpdateById(once, id, p);
    forall i | 0 <= i < |s| ensures twice[i] == once[i] {
      if s[i].id == id && once[i].id == id {
        assert Merge(Merge(s[i], p), p) == Merge(s[i], p);
      }
    }
  }

  /** `[result, ...history].slice(0, 100)` */
  function PrependCapped(h: seq<PromptResult>, x: PromptResult): (r: seq<PromptResult>)
    ensures |r| == if |h| + 1 < HistoryLimit then |h| + 1 else HistoryLimit
    ensures r[0] == x && r[1..] == h[..|r| - 1]
  {
    var all := [x] + h;
    if |all| < HistoryLimit then all else all[..HistoryLimit]
  }

  /**
   * Adding results one by one: the newest is first, each older one moves one
   * place down, and the history never exceeds the limit.
   */
  lemma {:induction false} HistoryNewestFirst(h: seq<PromptResult>, xs: seq<PromptResult>)
    requires |h| <= HistoryLimit
    ensures var r := AddAll(h, xs);
            (|xs| > 0 ==> r[0] == xs[|xs| - 1]) &&
            (|xs| <= HistoryLimit ==> forall i :: 0 <= i < |xs| ==> r[i] == xs[|xs| - 1 - i])
    decreases |xs|
  {
    if xs != [] {
      var front := xs[..|xs| - 1];
      HistoryNewestFirst(h, front);
      var r0 := AddAll(h, front);
      var r := PrependCapped(r0, xs[|xs| - 1]);
      assert AddAll(h, xs) == r;
      if |xs| <= HistoryLimit {
        forall i | 0 < i < |xs| ensures r[i] == xs[|xs| - 1 - i] {
          assert r[i] == r[1..][i - 1] == r0[i - 1];
        }
      }
    }
  }

  /** `addToHistory` applied to each result of `xs` in order. */
  function AddAll(h: seq<PromptResult>, xs: seq<PromptResult>): (r: seq<PromptResult>)
    requires |h| <= HistoryLimit
    ensures |r| == if |h| + |xs| < HistoryLimit then |h| + |xs| else HistoryLimit
    decreases |xs|
  {
    if xs == [] then h else PrependCapped(AddAll(h, xs[..|xs| - 1]), xs[|xs| - 1])
  }

  class PromptState {
    var templates: seq<PromptTemplate>
    var history: seq<PromptResult>
    var currentTemplate: Option<PromptTemplate>

    ghost predicate Valid()
      reads this
    {
      |history| <= HistoryLimit
    }

    constructor ()
      ensures Valid()
      ensures templates == [] && history == [] && currentTemplate == None
    {
      templates := [];
      history := [];
      currentTemplate := None;
    }

    method AddTemplate(template: PromptTemplate)
      requires Valid()
      modifies this
      ensures Valid()
      ensures templates == old(templates) + [template]
      ensures history == old(history) && currentTemplate == old(currentTemplate)
    {
      templates := templates + [template];
    }

    method RemoveTemplate(id: string)
      requires Valid()
      modifies this
      ensures Valid()
      ensures templates == RemoveById(old(templates), id)
      ensures history == old(history) && currentTemplate == old(currentTemplate)
    {
      templates := RemoveById(templates, id);
    }

    method UpdateTemplate(id: string, updates: TemplatePatch)
      requires Valid()
      modifies this
      ensures Valid()
      ensures templates == UpdateById(old(templates), id, updates)
      ensures history == old(history) && currentTemplate == old(currentTemplate)
    {
      templates := UpdateById(templates, id, updates);
    }

    method SetCurrentTemplate(template: Option<PromptTemplate>)
      requires Valid()
      modifies this
      ensures Valid()
      ensures currentTemplate == template
      ensures templates == old(templates) && history == old(history)
    {
      currentTemplate := template;
    }

    method AddToHistory(result: PromptResult)
      requires Valid()
      modifies this
      ensures Valid()
      ensures history == PrependCapped(old(history), result)
      ensures templates == old(templates) && currentTemplate == old(currentTemplate)
    {
      history := PrependCapped(history, result);
    }

    method ClearHistory()
      requires Valid()
      modifies this
      ensures Valid()
      ensures history == []
      ensures templates == old(templates) && currentTemplate == old(currentTemplate)
    {
      history := [];
    }

    method GetHistory() returns (h: seq<PromptResult>)
      requires Valid()
      ensures h == history && |h| <= HistoryLimit
    {
      h := history;
    }
  }
}
