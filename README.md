# Decision-tree parser, form validation and chart dispatch, in Dafny

This project models three parts of a machine-learning dashboard's front end
and proves properties of them.

- **`parseTree`** (`src/features/models/charts/DecisionTree.tsx`) reads the
  text export of a decision tree, where each node is a line such as
  `|   |--- feature_3 <= 0.50` or `|   |   |--- class: 1`. It turns the
  export into a tree of condition nodes and class leaves:
  - it splits and filters the lines;
  - a line's depth is its count of `|` minus one;
  - it strips the marker prefix and decides whether the line is a class leaf;
  - a depth-0 line starts a new top-level node and empties the stack of open
    nodes; any other line goes under the nearest open node of smaller depth,
    or at the top level when there is none;
  - it wraps several top-level nodes in a synthetic "Decision Tree Root".

  **`TreeNodeView`** in the same file draws the tree. Class leaves are never
  drawn. Only condition children appear below a box. Exactly two of them get
  "True"/"False" tags. A connector and a spacing class depend on how many are
  visible.
- **`validateForm` and `handleInputChange`** (`src/features/form/FormPage.tsx`)
  work on the questionnaire. `validateForm` range-checks its four numeric
  answers into an error map, where later checks overwrite earlier ones.
  `handleInputChange` stores one answer and drops that answer's error.
- **`isScatterData`, `isKMeansCluster` and `renderChart`**
  (`src/features/models/ModelData.tsx`) decide which chart each
  visualisation is drawn as, or which incompatibility message replaces it.
  The same file also has the empty-list state.

Modules:

| file | module | contents |
|---|---|---|
| `wrappers.dfy` | `Wrappers` | `Option` |
| `js_text.dfy` | `JsText` | the JavaScript string operations used: `trim`, `split`, `match(...).length`, `startsWith`, `includes`, `toLowerCase` |
| `tree_lines.dfy` | `TreeLines` | per-line stages of `parseTree`: lines, depth, stripping (the prefix `replace` calls, and the source's `while` loop as a method), classification |
| `tree_spec.dfy` | `TreeSpec` | the tree `parseTree` builds, defined declaratively: the parent of each node, the stack expected after each line, children in line order, and the pre-order theorem |
| `tree_parse.dfy` | `TreeParse` | `parseTree` itself (see below), proved equal to the declarative tree |
| `tree_view.dfy` | `TreeView` | the drawing rules of `TreeNodeView` |
| `form_page.dfy` | `FormPage` | the form state as a class with `HandleInputChange` and `ValidateForm` |
| `model_data.dfy` | `ModelData` | `isScatterData`, `isKMeansCluster`, `renderChart` and the component's empty state, as functions |

`parseTree` builds its tree imperatively. Node objects are shared between
the stack and the tree, and children arrays grow in place. The model keeps
the nodes in an arena, the class `TreeBuilder`:
- node `q` is the `q`-th surviving line;
- `kids[q]` is its `children` array, as node ids;
- `roots` is `root.children`;
- the stack holds (depth, node id) frames.

`TreeBuilder.Add` keeps the invariant `Valid()`:
- the stack is exactly the ancestor chain of the last node;
- every children list names exactly the nodes whose parent is that node,
  in line order.

At the end, `TreeBuilder.Root` reads the tree out of the arena.
`ParseTree` is proved to return `Parse(text)`, the declarative
specification. `TopLevelPreorder` and `ParsePreorder` then show that every
surviving line appears exactly once, in line order.

## Model

| member | source | states |
|---|---|---|
| JsText.Split | src/features/models/charts/DecisionTree.tsx:12 | `split("\n")` gives at least one piece, no piece contains the separator, and joining the pieces with it gives back the text |
| JsText.SplitJoin | src/features/models/charts/DecisionTree.tsx:12 | splitting undoes joining for separator-free pieces, so `Split` is the one such decomposition |
| JsText.TrimEmptyIffBlank | src/features/models/charts/DecisionTree.tsx:11-13 | `trim()` gives the empty string exactly when every character is JavaScript whitespace |
| JsText.TrimStart | src/features/models/charts/DecisionTree.tsx:11-13 | trimming the start leaves a suffix of the input that is empty or does not start with whitespace |
| JsText.TrimStartDropped | src/features/models/charts/DecisionTree.tsx:11-13 | every character trimmed from the start is whitespace |
| JsText.Trim | src/features/models/charts/DecisionTree.tsx:11-13 | `trim()` leaves a string no longer than the input that neither starts nor ends with whitespace |
| JsText.TrimEnd | src/features/models/charts/DecisionTree.tsx:33 | trimming the end leaves a prefix that does not end in whitespace |
| JsText.CountChar | src/features/models/charts/DecisionTree.tsx:26 | `(line.match(/\|/g) \|\| []).length` is the number of occurrences of the character, and 0 exactly when it does not occur |
| JsText.Contains | src/features/models/ModelData.tsx:34-35 | `includes(needle)` holds only when the needle fits in the string, and always when the string starts with the needle |
| JsText.StartsWith | src/features/models/charts/DecisionTree.tsx:35 | `startsWith(prefix)` holds exactly when the prefix fits and agrees with the string character by character |
| JsText.ContainsIff | src/features/models/ModelData.tsx:34-35 | `includes(needle)` holds exactly when the needle starts at some position |
| JsText.ToLower | src/features/models/ModelData.tsx:34-35 | the modelled `toLowerCase` (see `JsText.LowerChar` under "Left out") keeps the length and lower-cases each character on its own |
| JsText.LowerChar | src/features/models/ModelData.tsx:34-35 | lower-casing one character never leaves an ASCII capital; a character it changes becomes an ASCII lower-case letter, and only A-Z and the Kelvin sign change |
| TreeLines.Lines | src/features/models/charts/DecisionTree.tsx:10-13 | every line left by the trim, split and filter has a non-empty trimmed form and contains no newline |
| TreeLines.NonBlank | src/features/models/charts/DecisionTree.tsx:13 | every kept line is one of the input lines and has a non-empty trimmed form |
| TreeLines.NonBlankKeeps | src/features/models/charts/DecisionTree.tsx:13 | every line with a non-empty trimmed form is kept, in its place: after what is kept of the lines before it and before what is kept of the lines after it |
| TreeLines.NonBlankAppend | src/features/models/charts/DecisionTree.tsx:13 | the filter works piece by piece: what is kept of `a + b` is what is kept of `a` followed by what is kept of `b`, so order and repeated lines are kept |
| TreeLines.LinesEmptyIffBlank | src/features/models/charts/DecisionTree.tsx:10-17 | no line survives the split and filter exactly when the whole text is whitespace |
| TreeLines.Depth | src/features/models/charts/DecisionTree.tsx:25-27 | a depth is at least -1, and it is -1 exactly when the line has no `\|` |
| TreeLines.DropPipes | src/features/models/charts/DecisionTree.tsx:31 | removing the leading pipes leaves a suffix that does not start with `\|` |
| TreeLines.DropPipesDropped | src/features/models/charts/DecisionTree.tsx:31 | every character `replace(/^\|+/, "")` removes is a `\|` |
| TreeLines.DropFill | src/features/models/charts/DecisionTree.tsx:32 | `replace(/^[-\s]+/, "")` leaves a suffix that is empty or does not start with `-` or whitespace |
| TreeLines.DropFillDropped | src/features/models/charts/DecisionTree.tsx:32 | every character `replace(/^[-\s]+/, "")` removes is a `-` or whitespace |
| TreeLines.DropMarkers | src/features/models/charts/DecisionTree.tsx:29-40 | removing the whole leading run of `\|`, `-` and whitespace leaves a suffix that is empty or starts with none of them |
| TreeLines.DropMarkersDropped | src/features/models/charts/DecisionTree.tsx:29-40 | every character removed with the leading run is a `\|`, a `-` or whitespace |
| TreeLines.DropMarkersAt | src/features/models/charts/DecisionTree.tsx:29-40 | the leading run ends exactly at the first character that is not a `\|`, a `-` or whitespace |
| TreeLines.FillPass | src/features/models/charts/DecisionTree.tsx:32-39 | `.replace(/^[-\s]+/, "").trim()` never lengthens the content and leaves it empty or starting with neither `-` nor whitespace and ending in no whitespace |
| TreeLines.Strip | src/features/models/charts/DecisionTree.tsx:29-40 | the stripped content is empty, or it starts with no `\|`, `-` or whitespace and ends in no whitespace |
| TreeLines.StripShape | src/features/models/charts/DecisionTree.tsx:29-44 | stripped content starts with no marker or filler and ends in no whitespace; it is empty exactly when the line is all markers and filler |
| TreeLines.StripIdempotent | src/features/models/charts/DecisionTree.tsx:29-40 | stripping a stripped content changes nothing |
| TreeLines.PipePassKeeps | src/features/models/charts/DecisionTree.tsx:35-40 | one turn of the stripping loop keeps the final stripped form and shortens the content |
| TreeLines.StripPipes | src/features/models/charts/DecisionTree.tsx:35-40 | the `while (content.startsWith("\|"))` loop, started from a content that the first pass has reduced, ends with the stripped form of the line |
| TreeLines.StripContent | src/features/models/charts/DecisionTree.tsx:29-40 | the replacements followed by the `while (content.startsWith("\|"))` loop give the line with its whole run of markers and filler removed and its end trimmed |
| TreeLines.ClassPattern | src/features/models/charts/DecisionTree.tsx:51 | content matching `/^(clase\|class)\s*:\s*\d+/i` is at least seven characters long |
| TreeLines.ClassPatternIff | src/features/models/charts/DecisionTree.tsx:51 | content matches `/^(clase\|class)\s*:\s*\d+/i` exactly when it is "class" or "clase" in any case, whitespace, `:`, whitespace and a digit, in that order from the start |
| TreeLines.ShapeIsPattern | src/features/models/charts/DecisionTree.tsx:51 | any content of that shape, for any positions of the colon and the digit, matches |
| TreeLines.ClassPatternAccepts | src/features/models/charts/DecisionTree.tsx:51 | every keyword, whitespace runs, colon, digit and tail put together in that order match, e.g. `Clase :3` and `CLASS:\t7 x` |
| TreeLines.SkipSpaces | src/features/models/charts/DecisionTree.tsx:51 | the `\s*` of the pattern stops at the end or at the first non-whitespace character from its start |
| TreeLines.SkipSpacesSkipped | src/features/models/charts/DecisionTree.tsx:51 | every character `\s*` passes over is whitespace |
| TreeLines.SkipSpacesAt | src/features/models/charts/DecisionTree.tsx:51 | `\s*` stops exactly at the first non-whitespace character |
| TreeLines.ClassPatternHasDigit | src/features/models/charts/DecisionTree.tsx:51 | content matching the pattern contains a digit |
| TreeLines.IsClassLine | src/features/models/charts/DecisionTree.tsx:48-52 | a class line starts with "class" or "clase", in any case |
| TreeLines.Classify | src/features/models/charts/DecisionTree.tsx:46-58 | a condition holds the content itself; a class leaf is made only from content that starts with "class" or "clase" |
| TreeLines.ClassIdOf | src/features/models/charts/DecisionTree.tsx:53-54 | content without digits gets class id 0 |
| TreeLines.LeadingDigits | src/features/models/charts/DecisionTree.tsx:53 | the digit run is a prefix made of digits and is maximal |
| TreeLines.DigitsValue | src/features/models/charts/DecisionTree.tsx:54 | `parseInt(run, 10)` of a run of n digits is below 10^n, and its last decimal digit is the run's last digit |
| TreeLines.SkipNonDigits | src/features/models/charts/DecisionTree.tsx:53 | the search for `(\d+)` starts at a suffix of the content that is empty or starts with a digit |
| TreeLines.SkipNonDigitsSkipped | src/features/models/charts/DecisionTree.tsx:53 | every character the search passes over is a non-digit |
| TreeLines.ClassIdSkipsNonDigits | src/features/models/charts/DecisionTree.tsx:53-54 | the digit run a leaf's class id is read from is preceded only by non-digits |
| TreeLines.ClassIdIsFirstDigitRun | src/features/models/charts/DecisionTree.tsx:53-54 | a leaf's class id is the value of the digit run that starts at the content's first digit; that run is non-empty when the content has a digit and sits in the content at that position |
| TreeLines.ClassIdRunIsMaximal | src/features/models/charts/DecisionTree.tsx:53-54 | the digit run ends at the end of the content or before a non-digit |
| TreeLines.ClassLineWithoutDigits | src/features/models/charts/DecisionTree.tsx:48-54 | a class line without digits, such as `class: unknown`, is the leaf with class id 0 |
| TreeLines.DigitsValueOfDecimal | src/features/models/charts/DecisionTree.tsx:54 | `parseInt(_, 10)` of a number's decimal digits is the number |
| TreeLines.ClassLineRoundTrip | src/features/models/charts/DecisionTree.tsx:48-54 | the content `class: <n>` is classified as the leaf with id n |
| TreeSpec.LastBelow | src/features/models/charts/DecisionTree.tsx:69-74 | the node found is the latest earlier one below the depth, and every node after it is at that depth or deeper |
| TreeSpec.ParentOf | src/features/models/charts/DecisionTree.tsx:64-82 | a node's parent comes earlier and is shallower; a depth-0 node has none |
| TreeSpec.NoPipeIsTopLevel | src/features/models/charts/DecisionTree.tsx:69-82 | a line without any `\|` (depth -1) always lands at the top level |
| TreeSpec.DeeperLineAttachesToPrevious | src/features/models/charts/DecisionTree.tsx:69-79 | a line deeper than the line before it (not at depth 0) becomes that line's child, even when that line is a class leaf |
| TreeSpec.PathShape | src/features/models/charts/DecisionTree.tsx:64-84 | along the ancestor chain that the stack holds, depths and node ids strictly increase from bottom to top |
| TreeSpec.SpineCut | src/features/models/charts/DecisionTree.tsx:69-71 | popping the previous node's stack while the top is at depth d or deeper stops exactly at the ancestor chain of the parent the specification names |
| TreeSpec.ChildIds | src/features/models/charts/DecisionTree.tsx:65-81 | a children list collected from node lo on names only nodes from lo up to the last one |
| TreeSpec.ChildIdsAreChildren | src/features/models/charts/DecisionTree.tsx:65-81 | a children list names only nodes whose parent it belongs to |
| TreeSpec.ChildIdsComplete | src/features/models/charts/DecisionTree.tsx:65-81 | every node whose parent is p is in p's children list |
| TreeSpec.ChildIdsIncreasing | src/features/models/charts/DecisionTree.tsx:65-81 | siblings keep their input-line order |
| TreeSpec.ChildIdsSnoc | src/features/models/charts/DecisionTree.tsx:64-79 | appending a node appends its id to its parent's children list (or to the top level) and leaves every other list unchanged |
| TreeSpec.MakeNode | src/features/models/charts/DecisionTree.tsx:46-58 | a node carries exactly the children it is given |
| TreeSpec.Subtree | src/features/models/charts/DecisionTree.tsx:64-85 | the subtree of a line carries that line's label and has one child per line whose parent it is |
| TreeSpec.Forest | src/features/models/charts/DecisionTree.tsx:64-85 | a children list becomes one subtree per id, in the same order |
| TreeSpec.TopLevel | src/features/models/charts/DecisionTree.tsx:64-85 | `root.children` is one subtree per id of the top-level children list, in the same order; with `ChildIdsAreChildren` and `ChildIdsComplete` these are exactly the lines that have no parent, in line order |
| TreeSpec.BlockEnd | src/features/models/charts/DecisionTree.tsx:69-82 | the block after a node runs up to the first later node that is not deeper than max(depth, 0) |
| TreeSpec.InsideBlock | src/features/models/charts/DecisionTree.tsx:69-82 | every node inside a node's block has a parent inside the block |
| TreeSpec.ChildBlock | src/features/models/charts/DecisionTree.tsx:69-82 | a child's block lies inside its parent's block, and the next child starts where it ends |
| TreeSpec.SubtreePreorder | src/features/models/charts/DecisionTree.tsx:64-85 | a node's subtree in pre-order lists exactly the lines of its block, in order |
| TreeSpec.TopLevelPreorder | src/features/models/charts/DecisionTree.tsx:64-85 | the top-level forest in pre-order lists every surviving line exactly once, in line order |
| TreeSpec.TopLevelEmptyIffNoItems | src/features/models/charts/DecisionTree.tsx:88-95 | the top level is empty exactly when no line survived |
| TreeParse.LineItem | src/features/models/charts/DecisionTree.tsx:25-62 | a line yields a node exactly when its stripped content is not empty, with the line's depth and the content's classification |
| TreeParse.Items | src/features/models/charts/DecisionTree.tsx:22-62 | the surviving nodes, all at depth -1 or more, at most one per line |
| TreeParse.LineItems | src/features/models/charts/DecisionTree.tsx:22-62 | one line contributes at most one node, at depth -1 or more |
| TreeParse.AttachTopLevel | src/features/models/charts/DecisionTree.tsx:64-67 | appending a parentless node to `root.children` keeps every children list exact |
| TreeParse.ChildKept | src/features/models/charts/DecisionTree.tsx:64-67 | a new top-level node leaves every earlier children list exact |
| TreeParse.AttachChild | src/features/models/charts/DecisionTree.tsx:73-79 | appending a node to its parent's children, or creating `[node]` on a leaf, keeps every children list exact |
| TreeParse.ChildAttached | src/features/models/charts/DecisionTree.tsx:73-79 | after a new child of i is attached, i's list gains exactly the new id and every other earlier list stays exact |
| TreeParse.PushedPath | src/features/models/charts/DecisionTree.tsx:84 | after the push, the stack is the new node's ancestor chain |
| TreeParse.KeptTop | src/features/models/charts/DecisionTree.tsx:73-82 | the stack is empty after popping exactly when the node has no parent; otherwise its top is the parent |
| TreeParse.TopLevelStep | src/features/models/charts/DecisionTree.tsx:64-67 | a depth-0 line has no parent, goes at the end of the top level and leaves a stack holding only itself, with every children list still exact |
| TreeParse.NestedTopLevelStep | src/features/models/charts/DecisionTree.tsx:69-82 | a nested line whose popped stack is empty goes at the end of the top level, and the stack is then only that line |
| TreeParse.NestedChildStep | src/features/models/charts/DecisionTree.tsx:69-84 | a nested line whose popped stack is not empty becomes the last child of the stack's top, and the stack is then the kept entries plus the line |
| TreeParse.PopDeeper | src/features/models/charts/DecisionTree.tsx:69-71 | the pop loop stops exactly at the entries the specification keeps |
| TreeParse.TreeBuilder.constructor | src/features/models/charts/DecisionTree.tsx:19-20 | an empty root and an empty stack |
| TreeParse.TreeBuilder.StackIncreasing | src/features/models/charts/DecisionTree.tsx:64-85 | after each push the stack's depths strictly increase from bottom to top, and its top is the node just placed |
| TreeParse.TreeBuilder.Add | src/features/models/charts/DecisionTree.tsx:64-85 | placing a node keeps `Valid`; it becomes the last child of its parent, or the last top-level node when it has none, and nothing else changes |
| TreeParse.TreeBuilder.AddLine | src/features/models/charts/DecisionTree.tsx:23-85 | one turn of the loop adds exactly the line's node, if any, and keeps `Valid` |
| TreeParse.TreeBuilder.Root | src/features/models/charts/DecisionTree.tsx:88-95 | the node returned is the normalised top level of the specification |
| TreeParse.TreeBuilder.NodeIsSubtree | src/features/models/charts/DecisionTree.tsx:64-85 | the node objects as linked in memory form exactly the specified subtree |
| TreeParse.TreeBuilder.Node | src/features/models/charts/DecisionTree.tsx:46-79 | a node object carries its line's label and one child per entry of its `children` array |
| TreeParse.TreeBuilder.Nodes | src/features/models/charts/DecisionTree.tsx:64-85 | a children array read out of memory gives one node per entry, in order |
| TreeParse.Build | src/features/models/charts/DecisionTree.tsx:22-86 | after the loop, the arena holds exactly the nodes of the surviving lines |
| TreeParse.Normalize | src/features/models/charts/DecisionTree.tsx:88-95 | a lone top-level node is the root itself; otherwise a condition root holds exactly the top level |
| TreeParse.Parse | src/features/models/charts/DecisionTree.tsx:9-96 | for text that is not all whitespace, the tree is the lone top-level node, or a condition whose children are exactly the top level |
| TreeParse.ParseTree | src/features/models/charts/DecisionTree.tsx:9-96 | `parseTree` returns the specified tree |
| TreeParse.ParseBlank | src/features/models/charts/DecisionTree.tsx:10-17 | empty or whitespace-only input gives exactly `{condition: "No data", children: []}` |
| TreeParse.ParseNothingSurvives | src/features/models/charts/DecisionTree.tsx:88-95 | non-blank input whose lines all strip to nothing gives `{condition: "Empty tree", children: []}` |
| TreeParse.ParsePreorder | src/features/models/charts/DecisionTree.tsx:9-96 | the parsed tree in pre-order lists every surviving line once, in line order, after "Decision Tree Root" exactly when there are several top-level nodes |
| TreeParse.NormalizePreorder | src/features/models/charts/DecisionTree.tsx:88-95 | the root normalisation puts "Decision Tree Root" in front of several top-level trees and returns a single one as it is |
| TreeParse.LoneLineIsRoot | src/features/models/charts/DecisionTree.tsx:95 | a lone surviving line is the whole tree, so a lone class line gives a leaf root |
| TreeView.Shown | src/features/models/charts/DecisionTree.tsx:102-106 | a tree shows no box exactly when its root is a class leaf |
| TreeView.Visible | src/features/models/charts/DecisionTree.tsx:124 | the visible children are condition nodes taken from the children |
| TreeView.VisibleAppend | src/features/models/charts/DecisionTree.tsx:124 | the filter works piece by piece, keeping the original order |
| TreeView.VisibleKeepsConditions | src/features/models/charts/DecisionTree.tsx:124 | every condition child is visible |
| TreeView.Tag | src/features/models/charts/DecisionTree.tsx:157-168 | a tag exists only among exactly two visible children: "True" for the first, "False" for the second |
| TreeView.View | src/features/models/charts/DecisionTree.tsx:102-106 | a node renders nothing exactly when it is a class leaf, whatever its children |
| TreeView.ConditionBox | src/features/models/charts/DecisionTree.tsx:108-172 | the caption is the condition when it is not empty; the block below exists exactly when some child is visible, with one branch per visible child drawn as that child's view |
| TreeView.TagRule | src/features/models/charts/DecisionTree.tsx:157-168 | with exactly two visible children the branches are tagged "True" then "False"; otherwise no branch is tagged |
| TreeView.ConnectorAndSpacing | src/features/models/charts/DecisionTree.tsx:128-143 | the connector is drawn exactly when more than one child is visible; `gap-6` is used exactly when more than two are, `gap-12` otherwise |
| TreeView.LeafChildrenDrawNothingBelow | src/features/models/charts/DecisionTree.tsx:123-126 | a condition whose children are all class leaves gets no block below it |
| TreeView.BoxesAreShownNodes | src/features/models/charts/DecisionTree.tsx:102-172 | exactly one box is drawn per condition node that lies below no class leaf |
| FormPage.FieldError | src/features/form/FormPage.tsx:57-103 | only the four numeric fields get a message, and it is "El campo es requerido" or, for age only, the range message |
| FormPage.Errors | src/features/form/FormPage.tsx:44-104 | the error map has an entry exactly for the fields with a message, holding that message |
| FormPage.ClearError | src/features/form/FormPage.tsx:36-41 | only the changed field's entry can go, and it goes when its message is not empty; every other entry stays |
| FormPage.InitialData | src/features/form/FormPage.tsx:15-27 | every field has an answer; the four numeric fields hold numbers and every other answer is the empty text |
| FormPage.NumberIn | src/features/form/FormPage.tsx:57-103 | the number a check reads is the stored one when it is finite, and NaN for a missing or text answer |
| FormPage.Flag | src/features/form/FormPage.tsx:57-103 | a failed check leaves its message under its field and a passed one changes nothing (`FormPage.FlagLookup` adds that no other field's entry is touched) |
| FormPage.Checks | src/features/form/FormPage.tsx:57-103 | the six checks in source order give messages only for the four numeric fields, and only the form's three texts |
| FormPage.Form.constructor | src/features/form/FormPage.tsx:15-29 | the initial answers (age 20, 5 hours of social media, 8 hours of sleep, 1 conflict, empty texts) and no errors |
| FormPage.Form.HandleInputChange | src/features/form/FormPage.tsx:32-42 | stores the answer under its field only and clears that field's error only |
| FormPage.Form.ValidateForm | src/features/form/FormPage.tsx:44-107 | the successive, overwriting assignments leave exactly the field-by-field error map; the answer is true exactly when the map is empty |
| FormPage.CollectErrors | src/features/form/FormPage.tsx:44-104 | the six checks, run in source order on a fresh map, leave exactly the field-by-field error map |
| FormPage.FlagLookup | src/features/form/FormPage.tsx:57-103 | one failed check sets its field's message and changes no other field's entry |
| FormPage.ChecksGiveErrors | src/features/form/FormPage.tsx:44-104 | the later checks overwrite the earlier ones so that the chain of six checks gives exactly the field-by-field error map |
| FormPage.PassesIffInRange | src/features/form/FormPage.tsx:57-106 | the form passes exactly when age is in [16, 65], social media use and sleep are in [1, 10], and conflicts are in [0, 5] |
| FormPage.YoungAgeMessage | src/features/form/FormPage.tsx:57-59 | an age in [1, 16) gets "Edad debe estar entre 16 y 65 años" |
| FormPage.BadAgeIsRequired | src/features/form/FormPage.tsx:57-73 | a missing age, or one below 1 or above 65, ends with "El campo es requerido", because the later check overwrites the range message |
| FormPage.UsageRangeMessageNeverShown | src/features/form/FormPage.tsx:61-83 | "Debe estar entre 1 y 10 horas" never survives, because the second check on the same range overwrites it |
| FormPage.OnlyNumericFieldsChecked | src/features/form/FormPage.tsx:47-103 | name, email and the multiple-choice answers never get an error |
| FormPage.ChecksAreIndependent | src/features/form/FormPage.tsx:57-103 | a field's error depends on that field's answer alone |
| FormPage.ChangeAffectsOnlyItsField | src/features/form/FormPage.tsx:32-103 | changing one answer changes no other field's error |
| FormPage.InitialDataPasses | src/features/form/FormPage.tsx:15-27 | the initial answers pass validation |
| ModelData.IsScatterData | src/features/models/ModelData.tsx:20-29 | scatter data is a non-empty array whose first row has `x` and `y`, and also `cluster` for every chart type but `"linear"` |
| ModelData.IsKMeansCluster | src/features/models/ModelData.tsx:32-37 | a recognised title is at least seven characters long |
| ModelData.RenderChart | src/features/models/ModelData.tsx:43-146 | a message is always the kind's incompatibility message; it replaces the chart exactly for non-scatter data on `"scatter"`, for non-scatter data or a missing regression line on `"linear"`, and for scatter data on every other kind |
| ModelData.IncompatibleMessage | src/features/models/ModelData.tsx:45-134 | the six chart kinds `bar`, `line`, `pie`, `scatter`, `linear` and `histogram` get a message of their own, and exactly the other kinds get "Tipo de gráfico no soportado" |
| ModelData.Dimension | src/features/models/ModelData.tsx:54-55 | `width \|\| default`: a given non-zero size is kept, a missing or zero size takes the default |
| ModelData.Render | src/features/models/ModelData.tsx:39-179 | without visualisations the page shows "No hay datos para mostrar"; otherwise one card per visualisation, in order, with its title and its chart; the title defaults to "Datos del Modelo" |
| ModelData.ScatterDataFirstRowOnly | src/features/models/ModelData.tsx:24-28 | only the first row decides `isScatterData` |
| ModelData.NoRowsNoScatter | src/features/models/ModelData.tsx:24 | a non-array or an empty array is never scatter data |
| ModelData.LinearNeedsXY | src/features/models/ModelData.tsx:25-28 | for `"linear"` the test is: the first row has `x` and `y` |
| ModelData.OtherTypesNeedCluster | src/features/models/ModelData.tsx:25-28 | for every other type the first row also needs `cluster` |
| ModelData.KMeansIff | src/features/models/ModelData.tsx:32-37 | `isKMeansCluster` holds exactly when "cluster" or "k-means" occurs in the lower-cased title |
| ModelData.KMeansIgnoresCase | src/features/models/ModelData.tsx:32-37 | a title and its lower-cased form are recognised alike |
| ModelData.KMeansWhenClusterInside | src/features/models/ModelData.tsx:32-37 | any title containing "Cluster" is recognised |
| ModelData.ToLowerAppend | src/features/models/ModelData.tsx:34-35 | lower-casing a concatenation lower-cases each part |
| ModelData.ToLowerIdempotent | src/features/models/ModelData.tsx:34-35 | lower-casing twice is lower-casing once |
| ModelData.ScatterRule | src/features/models/ModelData.tsx:86-100 | `"scatter"` draws a scatter plot exactly for data whose first row has `x`, `y` and `cluster`, and shows the scatter-plot message otherwise |
| ModelData.LinearRule | src/features/models/ModelData.tsx:101-116 | `"linear"` draws the regression chart exactly when the first row has `x` and `y` and a regression line is present, and shows the regression message otherwise |
| ModelData.OtherKindsRejectScatterData | src/features/models/ModelData.tsx:46-85 | bar, line, pie, histogram and unknown kinds show a message exactly for scatter data with `cluster` |
| ModelData.HistogramAndUnknownAreBars | src/features/models/ModelData.tsx:117-144 | histogram and unknown kinds are drawn as 500x350 bar charts by default; an unknown kind's message is "Tipo de gráfico no soportado" |
| ModelData.ChartKindsDiffer | src/features/models/ModelData.tsx:45-145 | each chart is drawn only for its own kind |
| ModelData.ChartSizeNeverZero | src/features/models/ModelData.tsx:54-142 | a drawn chart never has zero width or height, and a non-zero given size is used as is |

## Left out

- Rendering: markup, Tailwind classes, connector geometry and the try/catch error card of `DecisionTree`. Only which boxes, branches, tags, connector and spacing appear is modelled.
- The `depth` prop of `TreeNodeView`: it is passed down but never read.
- `indexOf(child)` on the visible children compares objects by identity. Children are distinct objects, so the model uses their position.
- TreeLines.ClassIdOf: `parseInt` of a long digit run gives a rounded double beyond 2^53. The model keeps the exact natural number.
- JsText.ToLower: JavaScript's `toLowerCase` can change a string's length (U+0130 lower-cases to two code units); the modelled one maps character to character and keeps the length. No character that grows this way lower-cases to a letter of "cluster" or "k-means".
- JsText.LowerChar: `toLowerCase` is modelled for A-Z and the Kelvin sign U+212A. These are the only characters that lower-case to the letters of "cluster" or "k-means". Other characters are left as they are, which cannot change the outcome of `isKMeansCluster`.
- FormPage: numbers are exact reals, or NaN standing for `NaN`, `null` and `undefined`. Infinities and rounding are not modelled.
- FormPage.NumberIn: a text stored in a numeric field is read as NaN. JavaScript would convert numeric strings, but the form only stores `parseInt`/`parseFloat` results there.
- FormPage: `handleSubmit` is left out, because it is a timer, `localStorage` and navigation. The commented-out name and email checks are left out too.
- ModelData: the chart components, and the data, labels and titles they receive, are not modelled. A chart is its kind and its size.
- ModelData: the `console.log` in `renderChart` is left out.
- ModelData.Payload: rows are modelled as property-name sets. A primitive or `null` first row, where `"x" in data[0]` throws, is not modelled.
- ModelData.Dimension: a `NaN` size (also falsy) is not modelled. Sizes are integers.
