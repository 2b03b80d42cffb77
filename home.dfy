/**
 * The home screen (components/Home.tsx): validation of the topic typed by
 * the user, the submit handler with its client-side cooldown, and the
 * grouping of the known topics into folders by category.
 */
module Home {
  import opened Wrappers
  import opened Text
  import opened Patterns
  import opened AnnotationTree

  const MaxQueryLength: nat := 200
  /** Minimum time between two searches, in milliseconds. */
  const CooldownMillis: int := 2000

  const EmptyQueryError: string := "Por favor, digite um termo para pesquisar"
  const TooLongError: string := "O termo de pesquisa deve ter no máximo 200 caracteres"
  const InvalidCharactersError: string := "O termo de pesquisa contém caracteres inválidos"
  const ValidationFallbackError: string := "Erro na validação"
  const CooldownError: string := "Aguarde alguns segundos antes de pesquisar novamente"
  const SearchFailedError: string := "Não foi possível gerar o mapa mental. Tente novamente."

  // ---------------------------------------------------------------------
  // Validation

  /** `{ valid, error? }`: an invalid query carries its error message. */
  datatype Validation = Valid | Invalid(error: string)

  /** Some dangerous pattern occurs in the trimmed query. */
  predicate Dangerous(trimmed: string) {
    MatchesAny(DangerousPatterns(), trimmed)
  }

  /** What the checks decide, stated without their order of evaluation inside the pattern list. */
  function Verdict(query: string): (v: Validation)
    ensures v.Invalid? ==> v.error != []
    ensures v == Valid ==> 0 < |Trim(query)| <= MaxQueryLength
  {
    var trimmed := Trim(query);
    if trimmed == [] then Invalid(EmptyQueryError)
    else if |trimmed| > MaxQueryLength then Invalid(TooLongError)
    else if Dangerous(trimmed) then Invalid(InvalidCharactersError)
    else Valid
  }

  /** `validateQuery`: blank, then length, then the dangerous patterns. */
  method ValidateQuery(query: string) returns (v: Validation)
    ensures v == Verdict(query)
  {
    var trimmed := Trim(query);
    if trimmed == [] {
      return Invalid(EmptyQueryError);
    }
    if |trimmed| > MaxQueryLength {
      return Invalid(TooLongError);
    }
    var hit := FirstMatch(DangerousPatterns(), trimmed);
    if hit {
      return Invalid(InvalidCharactersError);
    }
    return Valid;
  }

  /** The loop of `validateQuery` over the patterns, each tried in turn until one matches. */
  method FirstMatch(patterns: seq<Pattern>, trimmed: string) returns (hit: bool)
    ensures hit == MatchesAny(patterns, trimmed)
  {
    for k := 0 to |patterns|
      invariant forall m :: 0 <= m < k ==> !Test(patterns[m], trimmed)
    {
      if Test(patterns[k], trimmed) {
        return true;
      }
    }
    return false;
  }

  /** A blank query is rejected as empty, whatever else holds of it. */
  lemma {:induction false} BlankRejectedFirst(query: string)
    requires AllSpace(query)
    ensures Verdict(query) == Invalid(EmptyQueryError)
  {
    TrimEmptyIffBlank(query);
  }

  /** A non-blank query is rejected as too long exactly when its trimmed form exceeds 200 characters. */
  lemma {:induction false} LengthLimit(query: string)
    requires !AllSpace(query)
    ensures Verdict(query) == Invalid(TooLongError) <==> |Trim(query)| > MaxQueryLength
  {
    TrimEmptyIffBlank(query);
  }

  /**
   * A query passing the blank and length checks is rejected for invalid
   * characters exactly when some substring of its trimmed, lower-cased
   * form is a word of one of the four patterns; otherwise it is valid.
   */
  lemma {:induction false} PatternRejection(query: string)
    requires !AllSpace(query) && |Trim(query)| <= MaxQueryLength
    ensures Verdict(query) == Invalid(InvalidCharactersError) <==>
            exists k :: 0 <= k < |DangerousPatterns()| && Occurs(DangerousPatterns()[k], Trim(query))
    ensures Verdict(query) == Valid || Verdict(query) == Invalid(InvalidCharactersError)
  {
    TrimEmptyIffBlank(query);
    MatchesAnyCorrect(DangerousPatterns(), Trim(query));
  }

  /** A valid verdict is reached exactly when all three checks pass. */
  lemma {:induction false} ValidIffAllChecksPass(query: string)
    ensures Verdict(query) == Valid <==>
            !AllSpace(query) && |Trim(query)| <= MaxQueryLength && !Dangerous(Trim(query))
    ensures Verdict(query).Invalid? ==> Verdict(query).error != []
  {
    TrimEmptyIffBlank(query);
  }

  // ---------------------------------------------------------------------
  // Submitting

  /** The component state `handleSubmit` reads and writes. */
  datatype FormState = FormState(query: string, isSearching: bool, error: Option<string>, lastSearchTime: int)

  /** What a submission does up to the call of `onSearch`: the new state and the query passed, if any. */
  datatype Submission = Submission(state: FormState, request: Option<string>)

  function Submit(s: FormState, now: int): (r: Submission)
    ensures r.request.Some? ==> Verdict(s.query) == Valid && now - s.lastSearchTime >= CooldownMillis && r.request.value == Trim(s.query)
    ensures r.request.None? ==> r.state.lastSearchTime == s.lastSearchTime && r.state.query == s.query
  {
    SubmitWith(s, now, Verdict(s.query), Trim(s.query))
  }

  /** `Submit` once the validation has produced the verdict `v`; `trimmed` is the query as passed on. */
  function SubmitWith(s: FormState, now: int, v: Validation, trimmed: string): (r: Submission)
    ensures r.request.Some? ==> v == Valid && now - s.lastSearchTime >= CooldownMillis && r.request.value == trimmed
  {
    match v
    case Invalid(e) => Submission(s.(error := Some(OrElse(Some(e), ValidationFallbackError))), None)
    case Valid =>
      if now - s.lastSearchTime < CooldownMillis then
        Submission(s.(error := Some(CooldownError)), None)
      else
        Submission(s.(isSearching := true, error := None, lastSearchTime := now), Some(trimmed))
  }

  /** What happens once `onSearch` has settled. */
  function Settle(s: FormState, succeeded: bool): (t: FormState)
    ensures !t.isSearching && t.lastSearchTime == s.lastSearchTime
    ensures succeeded ==> t.query == [] && t.error == s.error
    ensures !succeeded ==> t.query == s.query && t.error == Some(SearchFailedError)
  {
    var t := if succeeded then s.(query := []) else s.(error := Some(SearchFailedError));
    t.(isSearching := false)
  }

  /** A rejected submission only sets the error, to the validation message or the cooldown message. */
  lemma {:induction false} RejectionOnlySetsError(s: FormState, now: int)
    requires Submit(s, now).request.None?
    ensures Submit(s, now).state == s.(error := Submit(s, now).state.error)
    ensures Verdict(s.query).Invalid? ==> Submit(s, now).state.error == Some(Verdict(s.query).error)
    ensures Verdict(s.query) == Valid ==> now - s.lastSearchTime < CooldownMillis
                                          && Submit(s, now).state.error == Some(CooldownError)
  {
    ValidIffAllChecksPass(s.query);
  }

  /**
   * An accepted submission records the time, clears the error, marks the
   * search as running and passes the trimmed query on; once the search
   * settles the form is idle again, with the query cleared on success and
   * the failure message shown otherwise.
   */
  lemma {:induction false} AcceptedSubmission(s: FormState, now: int, succeeded: bool)
    requires Verdict(s.query) == Valid && now - s.lastSearchTime >= CooldownMillis
    ensures Submit(s, now).request == Some(Trim(s.query))
    ensures Submit(s, now).state == FormState(s.query, true, None, now)
    ensures Settle(Submit(s, now).state, succeeded) ==
            if succeeded then FormState([], false, None, now) else FormState(s.query, false, Some(SearchFailedError), now)
  {
  }

  /** Two searches are never started less than the cooldown apart, whatever happens in between. */
  lemma {:induction false} CooldownBetweenSearches(s: FormState, t1: int, succeeded: bool, edited: string, t2: int)
    requires Submit(s, t1).request.Some?
    requires var s2 := Settle(Submit(s, t1).state, succeeded).(query := edited, error := None);
             Submit(s2, t2).request.Some?
    ensures t2 - t1 >= CooldownMillis
  {
  }

  /** The form of the home screen. */
  class HomeForm {
    var query: string
    var isSearching: bool
    var error: Option<string>
    var lastSearchTime: int

    function State(): FormState
      reads this
    {
      FormState(query, isSearching, error, lastSearchTime)
    }

    constructor ()
      ensures State() == FormState([], false, None, 0)
    {
      query, isSearching, error, lastSearchTime := [], false, None, 0;
    }

    /** Typing in the input: the text is taken and any error is cleared. */
    method Edit(text: string)
      modifies this
      ensures State() == old(State()).(query := text, error := None)
    {
      query := text;
      error := None;
    }

    /** `handleSubmit` up to `await onSearch(...)`; returns the argument of that call, if it is made. */
    method HandleSubmit(now: int) returns (request: Option<string>)
      modifies this
      ensures Submission(State(), request) == Submit(old(State()), now)
    {
      var validation := ValidateQuery(query);
      request := Admit(validation, Trim(query), now);
    }

    /**
     * `handleSubmit` once `validateQuery` has returned `validation`: the
     * error paths and the cooldown; `trimmed` is `query.trim()`.
     */
    method Admit(validation: Validation, trimmed: string, now: int) returns (request: Option<string>)
      modifies this
      ensures Submission(State(), request) == SubmitWith(old(State()), now, validation, trimmed)
    {
      if validation.Invalid? {
        error := Some(OrElse(Some(validation.error), ValidationFallbackError));
        request := None;
      } else if now - lastSearchTime < CooldownMillis {
        error := Some(CooldownError);
        request := None;
      } else {
        isSearching := true;
        error := None;
        lastSearchTime := now;
        request := Some(trimmed);
      }
    }

    /** The rest of `handleSubmit`, once the search promise has resolved or rejected. */
    method SearchSettled(succeeded: bool)
      modifies this
      ensures State() == Settle(old(State()), succeeded)
    {
      if succeeded {
        query := [];
      } else {
        error := Some(SearchFailedError);
      }
      isSearching := false;
    }
  }

  // ---------------------------------------------------------------------
  // Folders

  datatype Topic = Topic(id: string, name: string, category: string, data: Node)

  /** The topics of one category, in their original order. */
  function InCategory(topics: seq<Topic>, c: string): (r: seq<Topic>)
    ensures |r| <= |topics|
  {
    if topics == [] then []
    else
      var last := topics[|topics| - 1];
      InCategory(topics[..|topics| - 1], c) + (if last.category == c then [last] else [])
  }

  /** The categories, each once, in the order of their first topic. */
  function Categories(topics: seq<Topic>): (cs: seq<string>)
    ensures Distinct(cs)
  {
    if topics == [] then []
    else
      var cs := Categories(topics[..|topics| - 1]);
      var c := topics[|topics| - 1].category;
      if c in cs then cs else cs + [c]
  }

  /** A category is listed exactly when some topic has it. */
  lemma {:induction false} CategoriesListed(topics: seq<Topic>, c: string)
    ensures c in Categories(topics) <==> exists t :: t in topics && t.category == c
    decreases topics
  {
    if topics != [] {
      var init := topics[..|topics| - 1];
      CategoriesListed(init, c);
      assert topics == init + [topics[|topics| - 1]];
    }
  }

  /** `folders`: the object built by the reduce, its keys kept in insertion order. */
  datatype Folders = Folders(keys: seq<string>, groups: map<string, seq<Topic>>)

  /**
   * The reduce as its authors evidently meant it: a category is looked up
   * among the keys already added only (see `ReduceAsWritten` for the code
   * as it stands).
   */
  method GroupByCategory(topics: seq<Topic>) returns (f: Folders)
    ensures f.keys == Categories(topics)
    ensures forall c :: c in f.groups <==> c in f.keys
    ensures forall c :: c in f.groups ==> f.groups[c] == InCategory(topics, c)
  {
    f := Folders([], map[]);
    for i := 0 to |topics|
      invariant GroupsOf(f, topics[..i])
    {
      var topic := topics[i];
      FileGroups(f, topics, i);
      if topic.category in f.groups {
        f := f.(groups := f.groups[topic.category := f.groups[topic.category] + [topic]]);
      } else {
        f := Folders(f.keys + [topic.category], f.groups[topic.category := [topic]]);
      }
    }
    assert topics[..|topics|] == topics;
  }

  /** One step of the intended reduce: the topic is appended to the folder of its category, created if need be. */
  function File(f: Folders, topic: Topic): Folders {
    var c := topic.category;
    if c in f.groups then f.(groups := f.groups[c := f.groups[c] + [topic]])
    else Folders(f.keys + [c], f.groups[c := [topic]])
  }

  /** Filing the next topic keeps the folders those of the topics seen so far. */
  lemma {:induction false} FileGroups(f: Folders, topics: seq<Topic>, i: nat)
    requires i < |topics| && GroupsOf(f, topics[..i])
    ensures GroupsOf(File(f, topics[i]), topics[..i + 1])
  {
    GroupStep(topics, i);
  }

  /** How the categories and the groups grow by one topic. */
  lemma {:induction false} GroupStep(topics: seq<Topic>, i: nat)
    requires i < |topics|
    ensures var c := topics[i].category; var cs := Categories(topics[..i]);
            Categories(topics[..i + 1]) == if c in cs then cs else cs + [c]
    ensures forall c ::
              InCategory(topics[..i + 1], c) == InCategory(topics[..i], c) + (if topics[i].category == c then [topics[i]] else [])
    ensures topics[i].category !in Categories(topics[..i]) ==> InCategory(topics[..i], topics[i].category) == []
  {
    assert topics[..i + 1][..i] == topics[..i];
    if topics[i].category !in Categories(topics[..i]) {
      CategoriesListed(topics[..i], topics[i].category);
      InCategoryEmpty(topics[..i], topics[i].category);
    }
  }

  /** Every topic lands in the group of its own category, and in no other. */
  lemma {:induction false} TopicInItsGroup(topics: seq<Topic>, t: Topic, c: string)
    ensures t in InCategory(topics, c) <==> t in topics && t.category == c
    decreases topics
  {
    if topics != [] {
      var init := topics[..|topics| - 1];
      TopicInItsGroup(init, t, c);
      assert topics == init + [topics[|topics| - 1]];
    }
  }

  /** The sizes of the groups of the categories `cs`, added up. */
  function GroupSizes(cs: seq<string>, topics: seq<Topic>): nat {
    if cs == [] then 0 else GroupSizes(cs[..|cs| - 1], topics) + |InCategory(topics, cs[|cs| - 1])|
  }

  lemma {:induction false} GroupSizesGrow(cs: seq<string>, init: seq<Topic>, last: Topic)
    ensures GroupSizes(cs, init + [last]) == GroupSizes(cs, init) + multiset(cs)[last.category]
    decreases cs
  {
    var ts := init + [last];
    assert ts[..|ts| - 1] == init;
    if cs != [] {
      var m := |cs| - 1;
      GroupSizesGrow(cs[..m], init, last);
      assert cs == cs[..m] + [cs[m]];
    }
  }

  lemma {:induction false} DistinctOnce(cs: seq<string>, c: string)
    requires Distinct(cs)
    ensures multiset(cs)[c] == if c in cs then 1 else 0
    decreases cs
  {
    if cs != [] {
      var m := |cs| - 1;
      DistinctOnce(cs[..m], c);
      assert cs == cs[..m] + [cs[m]];
    }
  }

  lemma {:induction false} InCategoryEmpty(topics: seq<Topic>, c: string)
    requires forall t :: t in topics ==> t.category != c
    ensures InCategory(topics, c) == []
    decreases topics
  {
    if topics != [] {
      InCategoryEmpty(topics[..|topics| - 1], c);
    }
  }

  /** The groups together hold every topic once: their sizes add up to the number of topics. */
  lemma {:induction false} GroupsPartitionTopics(topics: seq<Topic>)
    ensures GroupSizes(Categories(topics), topics) == |topics|
    decreases topics
  {
    if topics != [] {
      var init := topics[..|topics| - 1];
      var last := topics[|topics| - 1];
      assert topics == init + [last];
      var cs := Categories(init);
      GroupsPartitionTopics(init);
      GroupSizesGrow(cs, init, last);
      DistinctOnce(cs, last.category);
      if last.category !in cs {
        CategoriesListed(init, last.category);
        InCategoryEmpty(init, last.category);
        assert (cs + [last.category])[..|cs|] == cs;
      }
    }
  }

  // ---------------------------------------------------------------------
  // The reduce as written. `folders` starts as `{}`, an ordinary object,
  // so `acc[topic.category]` also finds the members every object inherits.
  // For a category named like one of them the lookup is truthy, no array
  // is created, and `push` is called on a function (or, for `__proto__`,
  // on the prototype object itself), which throws a `TypeError`.

  /** The property names an empty object literal inherits. */
  const InheritedKeys: set<string> := {
    "constructor", "hasOwnProperty", "isPrototypeOf", "propertyIsEnumerable", "toLocaleString",
    "toString", "valueOf", "__proto__", "__defineGetter__", "__defineSetter__", "__lookupGetter__",
    "__lookupSetter__"}

  /** One step of the reduce as written; `None` once it has thrown. */
  function ReduceStep(acc: Option<Folders>, topic: Topic): Option<Folders> {
    match acc
    case None => None
    case Some(f) =>
      var c := topic.category;
      if c !in f.groups && c in InheritedKeys then None else Some(File(f, topic))
  }

  /** `topics.reduce(..., {})` as written: `None` when it throws. */
  function ReduceAsWritten(topics: seq<Topic>): (r: Option<Folders>)
    ensures r.Some? ==> |r.value.keys| <= |topics|
    ensures r.Some? ==> forall c :: c in r.value.groups <==> c in r.value.keys
  {
    if topics == [] then Some(Folders([], map[]))
    else ReduceStep(ReduceAsWritten(topics[..|topics| - 1]), topics[|topics| - 1])
  }

  /** `f` holds the categories of `topics` in first-seen order, each with its topics in order. */
  ghost predicate GroupsOf(f: Folders, topics: seq<Topic>) {
    && f.keys == Categories(topics)
    && (forall c :: c in f.groups <==> c in f.keys)
    && forall c :: c in f.groups ==> f.groups[c] == InCategory(topics, c)
  }

  /** A step of the reduce on a topic whose category is not inherited files it as intended. */
  lemma {:induction false} ReduceStepGroups(f: Folders, topics: seq<Topic>, i: nat)
    requires i < |topics| && GroupsOf(f, topics[..i]) && topics[i].category !in InheritedKeys
    ensures ReduceStep(Some(f), topics[i]).Some? && GroupsOf(ReduceStep(Some(f), topics[i]).value, topics[..i + 1])
  {
    FileGroups(f, topics, i);
  }

  /** The reduce as written throws exactly when some topic's category is an inherited name. */
  lemma {:induction false} ReduceAsWrittenThrows(topics: seq<Topic>)
    ensures ReduceAsWritten(topics).None? <==> exists t :: t in topics && t.category in InheritedKeys
    decreases topics
  {
    if topics != [] {
      var i := |topics| - 1;
      var init := topics[..i];
      ReduceAsWrittenThrows(init);
      assert topics == init + [topics[i]];
      if ReduceAsWritten(init).Some? && topics[i].category in InheritedKeys {
        ReduceAsWrittenGroups(init);
        CategoriesListed(init, topics[i].category);
      }
    }
  }

  /** When no category is an inherited name, the reduce as written groups the topics as intended. */
  lemma {:induction false} ReduceAsWrittenGroups(topics: seq<Topic>)
    requires forall t :: t in topics ==> t.category !in InheritedKeys
    ensures ReduceAsWritten(topics).Some? && GroupsOf(ReduceAsWritten(topics).value, topics)
    decreases topics
  {
    if topics != [] {
      var i := |topics| - 1;
      var init := topics[..i];
      ReduceAsWrittenGroups(init);
      ReduceStepGroups(ReduceAsWritten(init).value, topics, i);
      assert topics[..i + 1] == topics;
    } else {
      assert Categories(topics) == [];
    }
  }

  /** One topic filed under "toString" makes the reduce as written throw, where one folder holding it was intended. */
  lemma {:induction false} InheritedCategoryCounterexample(data: Node)
    ensures var topics := [Topic("1", "Java", "toString", data)];
            ReduceAsWritten(topics) == None
            && Categories(topics) == ["toString"] && InCategory(topics, "toString") == topics
  {
    var topics := [Topic("1", "Java", "toString", data)];
    assert topics[..0] == [];
  }
}
