# MindMap Explorer AI — a verified model of its client-side logic

MindMap Explorer AI is a React single-page application that draws a topic
(by default, the annotations of the Spring framework) as a horizontal mind
map, lets the user search the map for an annotation, and asks a language
model for a new map when the user types a technology on the home screen.
This project models, in Dafny, the deterministic logic of three components
and proves what it promises:

* **the mind map** (`components/MindMap.tsx`): the node count and height of
  the topic tree, the canvas size derived from them and from the container,
  the size and separation weights handed to the tidy-tree layout, the
  mobile/desktop initial pan-zoom preset, edge and node colours with their
  fallback, circle radii with the hover enlargement and its restoration,
  label side and font size, the zoom scale extent, and the resize handler.
  The view state (viewBox, zoom transform) is a class, `MindMap.MindMapView`,
  and each circle's radius a class, `MindMap.NodeCircle`;
* **the map search** (`components/Search.tsx`): the recursive collection of
  the names of the annotation nodes, its sort, the case-insensitive filter
  that finds nothing for a blank query, and the panel's state
  (`Search.SearchPanel`);
* **the home screen** (`components/Home.tsx`): query validation (blank,
  then longer than 200 characters, then four prompt-injection patterns),
  the submit handler with its two-second cooldown (`Home.HomeForm`), and
  the grouping of the known topics into folders by category.

The topic tree (`types.ts`) is `AnnotationTree.Node`; the seed tree of
`constants.ts` is transcribed in `SeedData`, and scenario lemmas compute
its size, height, annotations and canvas. JavaScript's own operations are
modelled where the code relies on them: `String.prototype.trim` and
`toLowerCase` (`Text`), the default `Array.prototype.sort` order
(`StringOrder`), and the four regular expressions with the `i` flag
(`Patterns`, with a declarative meaning `Denotes` and a backtracking
matcher proved equivalent to it).

Files: `wrappers.dfy` (`Option` and JavaScript `||` on optional strings), `text.dfy`, `strorder.dfy`, `tree.dfy`,
`mindmap.dfy`, `search.dfy`, `patterns.dfy`, `home.dfy`, `seed.dfy`.

Where the code and its description disagree, the model follows the code:
the search index is always built from the seed tree (`SPRING_DATA`), not
from the map on screen. `Search.SearchPanel.constructor` takes the tree as
an argument, the component passes the seed tree to it, and the
discrepancy is the second row of "Findings".

## Model

| member | source | states |
|---|---|---|
| AnnotationTree.NodeCount | components/MindMap.tsx:43 | a tree has at least one node, its root; a forest has at least one node per tree |
| AnnotationTree.NodeCountCountsNodes | components/MindMap.tsx:43 | `NodeCount` equals the number of distinct valid child-index paths, i.e. the root and every node below it, each once |
| AnnotationTree.HeightIsLongestPath | components/MindMap.tsx:44 | every root-to-node path is at most `Height` edges long, and some path of exactly that length ends at a leaf |
| AnnotationTree.Height | components/MindMap.tsx:44 | the height is below the node count, and is 0 exactly for a childless root |
| MindMap.CanvasHeight | components/MindMap.tsx:47 | the canvas height is at least the container height and at least 22 px per node, and equals one of the two |
| MindMap.CanvasWidth | components/MindMap.tsx:48 | the canvas width is at least the container width and at least 300 px per level, and equals one of the two |
| MindMap.ComputeLayout | components/MindMap.tsx:43-56 | the counts handed to the layout (height below node count); each canvas dimension equals `CanvasHeight` / `CanvasWidth`, i.e. exactly the larger of the container dimension and 22 px per node / 300 px per level; the layout size is the canvas minus 80 and minus 350; the mobile flag is width below 768 |
| MindMap.RootOnlyLayout | components/MindMap.tsx:43-48 | a tree that is only its root keeps the container width, counts one node and is at least one row high |
| MindMap.CanvasMonotone | components/MindMap.tsx:47-48 | a larger container never yields a smaller canvas |
| MindMap.Separation | components/MindMap.tsx:52 | the separation weight is always 1.5 or 2.5 |
| MindMap.SeparationSymmetric | components/MindMap.tsx:52 | the separation of two nodes does not depend on their order |
| MindMap.SiblingsCloser | components/MindMap.tsx:52 | two children of one parent get 1.5, children of different parents get 2.5, so siblings sit strictly closer |
| MindMap.InitialTransform | components/MindMap.tsx:56-61 | below 768 px the preset is translate (20, height/4) at scale 0.5, otherwise (80, 50) at 0.75; both scales lie in the zoom extent |
| MindMap.MobileStartsSmaller | components/MindMap.tsx:56-59 | a mobile container always starts more zoomed out and nearer the left edge than a desktop one |
| MindMap.ClampScale | components/MindMap.tsx:33-34 | the zoom scale always lies in [0.1, 5]; a request inside is kept, one above 5 gives 5, one below 0.1 gives 0.1 |
| MindMap.ClampScaleProperties | components/MindMap.tsx:33-34 | clamping is idempotent and monotone |
| Wrappers.OrElse | components/MindMap.tsx:76 | JavaScript `||` on an optional colour: a present, non-empty colour wins, anything else gives the fallback |
| MindMap.EdgeStroke | components/MindMap.tsx:73-77 | an edge takes the child's colour, else the parent's, else `#475569`, empty strings counting as absent; never empty |
| MindMap.NodeFill | components/MindMap.tsx:96 | a circle takes its own colour, else `#475569`; never empty |
| MindMap.EdgeFollowsFill | components/MindMap.tsx:73-77 | an edge is painted like its child's circle when the child has a colour, and like its parent's circle otherwise |
| MindMap.BaseRadius | components/MindMap.tsx:91-95 | radius 8 for the root, 6 for a category, 4 for an annotation or a node without a type |
| MindMap.RadiusOrder | components/MindMap.tsx:91-105 | every base radius is positive and below the hover radius 10; annotation < category < root |
| MindMap.NodeCircle.constructor | components/MindMap.tsx:90-95 | a circle is drawn at the base radius of its kind |
| MindMap.NodeCircle.MouseOver | components/MindMap.tsx:100-102 | hovering sets the radius to 10, never shrinking the circle |
| MindMap.NodeCircle.MouseOut | components/MindMap.tsx:103-105 | leaving restores exactly the base radius of the node's kind, whatever the radius was |
| MindMap.NodeLabel | components/MindMap.tsx:107-113 | a node with children is labelled to its left, anchored at the end; a leaf to its right, anchored at the start; offset 8 on mobile and 15 otherwise; font 11 px on mobile and 14 px otherwise |
| MindMap.MobileLabelsSmaller | components/MindMap.tsx:109-113 | on mobile a label keeps its side but sits closer to its node and is smaller |
| MindMap.Rendered | components/MindMap.tsx:24-61 | right after drawing, the viewBox is `0 0 width height`, the transform is the initial preset and the layout is computed from the tree and the container |
| MindMap.Resized | components/MindMap.tsx:118-123 | a resize sets the viewBox to `0 0 newWidth newHeight` and keeps transform and layout |
| MindMap.ResizeIdempotent | components/MindMap.tsx:118-123 | the same resize twice is the same as once, and the latest resize wins |
| MindMap.MindMapView.Render | components/MindMap.tsx:22-61 | the view after the effect is `Rendered` of the tree and container, with its scale in the zoom extent |
| MindMap.MindMapView.Resize | components/MindMap.tsx:118-123 | the view after the handler is `Resized` of the view before it, and the scale stays in the extent |
| MindMap.MindMapView.Zoom | components/MindMap.tsx:33-37 | a zoom event stores the gesture's translation with its scale clamped to the extent; viewBox and layout are untouched |
| Text.TrimSpec | components/Home.tsx:20 | `trim` removes exactly the leading and trailing whitespace: the result is a slice of the input with only whitespace around it and no whitespace at its ends |
| Text.TrimEmptyIffBlank | components/Search.tsx:31 | a string trims to empty exactly when it is all whitespace |
| Text.Lower | components/Search.tsx:33 | `toLowerCase` keeps the length and lowers each character on its own |
| Text.Contains | components/Search.tsx:33 | `includes` holds exactly when the needle occurs at some index of the haystack |
| StringOrder.LeTotal | components/Search.tsx:27 | the default sort order on strings relates any two strings |
| StringOrder.LeTransitive | components/Search.tsx:27 | the default sort order is transitive |
| StringOrder.LeAntisymmetric | components/Search.tsx:27 | two strings ordered both ways are equal |
| StringOrder.Sort | components/Search.tsx:27 | the sort returns a sorted permutation of its input, duplicates kept |
| StringOrder.SortedPermutationUnique | components/Search.tsx:27 | two sorted permutations of the same strings are equal, so the sorted index is determined by the collected names |
| Search.Collected | components/Search.tsx:17-24 | the names collected from a tree are never more than its nodes: each node contributes at most its own name |
| Search.Traverse | components/Search.tsx:17-24 | `traverse` appends to the results exactly the names of the annotation nodes of the subtree, in pre-order |
| Search.BuildIndex | components/Search.tsx:16-28 | the index is sorted and is a permutation of the collected names |
| Search.CollectedMember | components/Search.tsx:18-23 | a name is collected exactly when some node at some depth has type annotation and that name; roots and categories never contribute |
| Search.CollectedIsAnnotationNodes | components/Search.tsx:17-24 | the collected names are those of the annotation nodes met along the enumeration of all nodes, which lists every node exactly once |
| Search.IndexIsSortedAnnotationNames | components/Search.tsx:16-28 | any sorted permutation of the collected names is their sort, and holds one entry per annotation node |
| Search.IndexMembers | components/Search.tsx:16-28 | a name is in the index exactly when an annotation node at some depth carries it |
| Search.Filtered | components/Search.tsx:30-35 | there are never more results than indexed names, and every result is an indexed name that contains the query case-insensitively |
| Search.BlankQueryFindsNothing | components/Search.tsx:31 | a query that is blank after trimming yields no results |
| Search.FilterSoundAndComplete | components/Search.tsx:30-35 | for a non-blank query every result is an indexed name containing the untrimmed query case-insensitively, every such name is a result as often as it is indexed, and results stay sorted |
| Search.MatchingSorted | components/Search.tsx:32-34 | filtering a sorted list keeps it sorted |
| Search.SearchPanel.constructor | components/Search.tsx:13-28 | on mounting, the index is a sorted permutation of the tree's annotation names, the query is empty and no result is shown |
| Search.SearchPanel.SetQuery | components/Search.tsx:50 | typing replaces the query and leaves the panel open or closed |
| Search.SearchPanel.Close | components/Search.tsx:52 | the close button closes the panel and keeps the typed query |
| Search.SearchPanel.Select | components/Search.tsx:62-66 | only a shown result can be chosen; it is reported unchanged, so the reported name is an indexed annotation, and the panel closes with its query cleared, so no result is left |
| Patterns.MatchPrefixSound | components/Home.tsx:30-38 | what the backtracking matcher accepts, some prefix of the subject denotes |
| Patterns.MatchPrefixComplete | components/Home.tsx:30-38 | whatever prefix of the subject denotes, the matcher accepts |
| Patterns.Test | components/Home.tsx:38 | `pattern.test` with the `i` flag holds exactly when the pattern matches at some position of the lower-cased subject |
| Patterns.TestFrom | components/Home.tsx:38 | a scan from position `i` succeeds exactly when the pattern matches at some later position |
| Patterns.TestCorrect | components/Home.tsx:38 | `pattern.test` with the `i` flag holds exactly when some substring of the lower-cased subject is a word of the pattern |
| Patterns.MatchesAnyCorrect | components/Home.tsx:37-41 | some pattern of a list tests true exactly when some pattern occurs in the subject |
| Home.Verdict | components/Home.tsx:19-44 | every invalid verdict carries a non-empty message, so the `'Erro na validação'` fallback is never shown; a valid query is 1 to 200 characters once trimmed |
| Home.ValidateQuery | components/Home.tsx:19-44 | the blank, length and pattern checks, tried in that order, return the verdict of the three checks |
| Home.FirstMatch | components/Home.tsx:37-41 | the loop over the patterns, stopping at the first that tests true, reports a match exactly when some pattern of the list tests true |
| Home.BlankRejectedFirst | components/Home.tsx:20-24 | a blank query is rejected with the empty-query message, whatever else holds |
| Home.LengthLimit | components/Home.tsx:26-28 | a non-blank query is rejected as too long exactly when its trimmed form exceeds 200 characters, so 200 passes |
| Home.PatternRejection | components/Home.tsx:30-41 | a query passing the first two checks is rejected for invalid characters exactly when one of the four patterns occurs in its trimmed, lower-cased form, and is valid otherwise |
| Home.ValidIffAllChecksPass | components/Home.tsx:19-44 | a query is valid exactly when it is not blank, at most 200 characters once trimmed and free of the patterns; every rejection carries a non-empty message |
| Home.Submit | components/Home.tsx:52-72 | a search is requested only for a valid query at least 2000 ms after the last one, and with the trimmed query; a rejection keeps the query and the last search time |
| Home.SubmitWith | components/Home.tsx:55-72 | given the verdict, a request is made only when it is valid and the cooldown has passed, and it carries the trimmed query |
| Home.Settle | components/Home.tsx:71-79 | once the search settles the form is idle, the query is cleared on success and the failure message is shown otherwise; the last search time is kept |
| Home.RejectionOnlySetsError | components/Home.tsx:55-65 | a rejected submission changes only the error: to the validation message, or, for a valid query, to the cooldown message |
| Home.AcceptedSubmission | components/Home.tsx:67-79 | an accepted submission records `now`, clears the error, marks the search running and passes the trimmed query on, then settles as above |
| Home.CooldownBetweenSearches | components/Home.tsx:61-69 | two searches, with the search settling and the query being edited in between, are never started less than 2000 ms apart |
| Home.HomeForm.constructor | components/Home.tsx:47-50 | the form starts with an empty query, no error, idle, last search at time 0 |
| Home.HomeForm.Edit | components/Home.tsx:109-112 | typing replaces the query and clears the error |
| Home.HomeForm.HandleSubmit | components/Home.tsx:52-72 | the handler up to the search call moves the form state, and returns the query passed on, exactly as `Submit` prescribes |
| Home.HomeForm.Admit | components/Home.tsx:56-72 | given the verdict, the error paths set only the error and return without a request, and an accepted query sets the search running, clears the error, records `now` and passes the trimmed query on, as `SubmitWith` prescribes |
| Home.HomeForm.SearchSettled | components/Home.tsx:71-79 | the rest of the handler moves the form state as `Settle` prescribes |
| Home.Categories | components/Home.tsx:82-86 | the folder keys are pairwise distinct |
| Home.CategoriesListed | components/Home.tsx:82-86 | a category is a folder key exactly when some topic has it |
| Home.TopicInItsGroup | components/Home.tsx:82-86 | a topic is in a folder exactly when the folder is its category's |
| Home.GroupByCategory | components/Home.tsx:82-86 | the reduce yields one folder per category, keyed in first-seen order, each holding that category's topics in input order |
| Home.FileGroups | components/Home.tsx:83-84 | filing the next topic (creating its folder if need be, then appending) keeps the folders exactly those of the topics seen so far |
| Home.GroupsPartitionTopics | components/Home.tsx:82-86 | the folder sizes add up to the number of topics: every topic is filed once |
| Home.ReduceAsWritten | components/Home.tsx:82-86 | when the reduce as written does not throw, it lists at most one key per topic and its object holds exactly the listed keys |
| Home.ReduceAsWrittenThrows | components/Home.tsx:82-86 | the reduce as written throws exactly when some topic's category is a property name every object inherits |
| Home.ReduceAsWrittenGroups | components/Home.tsx:82-86 | without such a category, the reduce as written files the topics as `GroupByCategory` does |
| Home.InheritedCategoryCounterexample | components/Home.tsx:83-84 | a single topic with category `toString` makes the reduce as written throw, where one folder holding it was intended |
| SeedData.SpringShape | constants.ts:4-108 | the seed tree has 51 nodes and height 3, and its annotations are the 42 listed names in pre-order |
| SeedData.SpringLayout | constants.ts:4-108 | drawn in a 1024 x 768 container, the seed tree gets a 1024 x 1122 canvas and a 1042 x 674 layout size on desktop |
| SeedData.SpringIndex | constants.ts:4-108 | the search index of the seed tree is the sort of its 42 annotation names |
| SeedData.SeedIndexMissesShownMap | components/Search.tsx:26 | with a map holding one `@EnableScheduling` annotation on screen, that annotation is not in the index the panel builds from the seed tree |

## Left out

- The positions computed by `d3.tree`, `d3.hierarchy` itself, `root.links()` and the link curves are library internals; only the parameters handed to them are modelled.
- SVG and DOM manipulation, transitions, styling and the 150 ms timer before drawing are presentation only.
- MindMap.MindMapView.Zoom: the translation of a zoom or pan gesture (focal-point anchoring, dragging) is computed by the library and is taken as given; only the scale extent is modelled.
- The effect's early return when the container or the data is missing is not modelled: the view is built only from a tree and a container size.
- The resize listener is never removed: the removal function is returned from the `setTimeout` callback, where it is discarded, and the effect's cleanup only clears the timer (components/MindMap.tsx:126-129). One more listener is left behind at every redraw. They are harmless: each sets the viewBox of the same `<svg>` from the same container (`MindMap.ResizeIdempotent`), and each returns at once when the container is gone (components/MindMap.tsx:119). The growing set of listeners is not modelled.
- The effect runs again whenever `onNodeClick` or `data` changes (components/MindMap.tsx:130), and App.tsx:115 passes a new arrow function on every render of the app. So every node click, search selection or panel toggle redraws the map and resets pan and zoom to the initial preset, as `MindMap.MindMapView.Render` states for each run. React's render scheduling is not modelled.
- The click callback that opens an annotation's details carries no logic of its own.
- Search.Traverse: the shared `results` array that `traverse` pushes into is threaded through as a value, so aliasing of that array is not modelled.
- StringOrder.Sort: `results.sort()` sorts in place by UTF-16 code units; the model sorts a sequence of characters by character code with an insertion sort. Characters outside the Basic Multilingual Plane are not ordered as surrogate pairs.
- Text.Lower and Text.TrimSpec: only ASCII letters are lowered and only ASCII whitespace is trimmed; `\s` in the patterns is ASCII whitespace as well. Full Unicode case mapping and whitespace are not modelled.
- Home.LengthLimit: the length of the trimmed query is counted in characters, not in UTF-16 code units.
- Home.GroupByCategory: the keys are listed in insertion order; `Object.entries` lists integer-like keys (such as "2024") first, in numeric order, and that reordering is not modelled.
- Home.HomeForm.HandleSubmit: the asynchronous handler is split at its `await` into `HandleSubmit` and `SearchSettled`; interleavings of other events with a pending search are not modelled, and the handler does not itself check `isSearching` (the disabled input and button, which stop such events in the browser, are not modelled).
- `Date.now()` is the parameter `now`, and the outcome of `onSearch` is the parameter `succeeded`; the network call behind it (services/geminiService.ts) is not part of this model, nor are the console message and the error object.
- The search panel shows an `ESC` hint "para fechar" (components/Search.tsx:86-87), but no key handler exists, so pressing Escape does nothing and there is nothing to model.
- The `maxLength={200}` attribute of the input and the panel's open/close props owned by the parent are browser and parent behaviour, not written in the components' logic.
- App.tsx, components/AnnotationDetails.tsx, components/Guide.tsx and services/geminiService.ts are not part of this model: they are routing, static markup and a network client.
- The `description` field of a tree node is not used by the modelled logic and is not part of `AnnotationTree.Node`.

## Findings

| source | as written | input that shows it | evidently intended | confidence | as-written member | corrected member |
|---|---|---|---|---|---|---|
| components/Home.tsx:82-86 | `acc[topic.category]` looks the category up on a plain object, so a category named like an inherited property (`toString`, `constructor`, `__proto__`, ...) is found already present, no array is created and `push` is called on a non-array, which throws | one topic whose category is `"toString"` | every category gets its own folder holding its topics | not executed; follows from the language semantics of property lookup on `{}`. Not reachable in this app as it stands: App.tsx:25 and App.tsx:41 only ever create the categories `Tópicos Java` and `Pesquisas Recentes` | Home.InheritedCategoryCounterexample | Home.GroupByCategory |
| components/Search.tsx:26 | `traverse(SPRING_DATA)` indexes the seed tree, whatever map `App` shows; the footer still counts the result as "itens no mapa" | a generated map with one `@EnableScheduling` annotation on screen: no query can show it, since every result is an indexed name | the index holds the annotations of the map on screen | not executed; medium, the component receives no tree to index | SeedData.SeedIndexMissesShownMap | Search.SearchPanel.constructor |
