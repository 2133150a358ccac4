# Recipe co-occurrence graph

A model of `main` in `Project/generate_recipes_graph.cpp`, the program that turns a
bipartite ingredient → recipes relation into a weighted recipe graph. The model has two
stages.

- **Loader.** For every ingredient `i`, the loader appends the recipe ids listed for it to
  `recipes_by_ingredients[i]`. For every occurrence of recipe `x` it increments the
  reference count `num_ing_recip[x]`.
- **Edge accumulator.** For every ingredient whose list `L` has length `n`, the importance
  weight is `idf = ln(num_recipes / n)`. For every pair of positions `j < k`, in row-major
  order, the accumulator adds `idf * 2 / (count[L[j]] + count[L[k]])` to
  `edges[L[j]][L[k]]`. Here `edges` is an array holding one ordered map per recipe, and a
  missing key reads as 0.

The model has four modules.

- `Pairs` is the order in which the nested `j`/`k` loops visit position pairs.
- `Counting` holds the reference counts as functions of the input lists, with their
  properties.
- `Weights` is a reference definition of the accumulated graph:
  - the weight of edge `(a, b)` is a sum over ingredient lists, rows `j` and columns `k`;
  - the key `b` is stored under `a` exactly when one such pair exists;
  - the module proves the properties of these definitions.
- `RecipeGraph` holds the imperative program:
  - a count array (`array<int>`) and an edge array (`array<map<int, real>>`), updated in
    place by the source's loops;
  - each method is proved against the functions of `Counting` and `Weights`.

Input and output work as follows.

- The input file is replaced by an in-memory sequence of ingredient lists.
- The natural logarithm is a parameter `ln: real -> real`.
- Weights are `real`.
- Every recipe id must lie in `[0, num_recipes)`, because the source indexes its arrays
  with the ids unchecked. This is stated as a precondition.

The model follows the code in four edge cases, each of which an implementation could
equally have handled by counting, rejecting or guarding:

- **Reference counts.** The code counts occurrences, so a recipe listed twice by one
  ingredient counts twice; it does not count the ingredients that list the recipe.
  `Counting.CountsAreListings` proves the two agree when no list repeats a recipe.
- **Self-loops.** The code does not reject lists with duplicate ids. It pairs a recipe
  listed twice by one ingredient with itself (`Weights.DuplicateMakesSelfLoop`). Lists
  without repeats form no self-loop (`Weights.NoSelfLoops`).
- **Empty lists.** The code does not reject an ingredient with an empty list. At line 32 it
  computes `log` of `num_recipes / 0` (infinite, or NaN when `num_recipes` is 0), and then
  runs no loop iteration. `Weights.Idf` gives such a list the value 0.
  `Weights.ShortListIdfUnused` shows that the value never reaches the graph.
- **Zero denominators.** The code does not guard against `count[a] + count[b] == 0`. The
  model requires every listed recipe to have a positive count (`Weights.Covered`).
  `RecipeGraph.RefCountsCover` proves that the zero-initialised loader establishes this.

## Model

| member | source | states |
|---|---|---|
| Counting.OccIsMultiplicity | Project/generate_recipes_graph.cpp:21-25 | the per-list occurrence count the loader accumulates is the multiplicity of the recipe in that list |
| Counting.OccPositive | Project/generate_recipes_graph.cpp:21-25 | a recipe is counted at least once in a list exactly when the list contains it |
| Counting.TotalOccPositive | Project/generate_recipes_graph.cpp:19-25 | a recipe's total count is positive exactly when some ingredient lists it (both directions) |
| Counting.CountsAreListings | Project/generate_recipes_graph.cpp:19-25 | when no list repeats a recipe, its count equals the number of ingredients that list it |
| Counting.CountConservation | Project/generate_recipes_graph.cpp:19-25 | the counts of all recipes add up to the total number of ids read |
| Pairs.PairOrderLength | Project/generate_recipes_graph.cpp:33-37 | for a list of n recipes the nested loops perform n * (n - 1) / 2 updates |
| Pairs.PairOrderMembers | Project/generate_recipes_graph.cpp:33-37 | the loops visit a position pair exactly when it is (j, k) with j < k < n (both directions) |
| Pairs.PairOrderVisitsOnce | Project/generate_recipes_graph.cpp:33-37 | the loops visit pairs in strictly increasing lexicographic order, so none twice |
| Weights.PairCountPositive | Project/generate_recipes_graph.cpp:33-38 | one list forms edge (a, b) at least once exactly when it holds a at an earlier position than b |
| Weights.GraphPairCountPositive | Project/generate_recipes_graph.cpp:29-38 | edge (a, b) is formed by some ingredient exactly when some list holds a before b |
| Weights.IngredientWeightClosedForm | Project/generate_recipes_graph.cpp:33-38 | contributions are summed, not overwritten: one list adds idf * 2 / (count[a] + count[b]) once per pair forming (a, b) |
| Weights.IdfNonnegative | Project/generate_recipes_graph.cpp:31-32 | the importance weight ln(num_recipes / n) is non-negative when n <= num_recipes and ln is non-negative from 1 on |
| Weights.IdfAntitone | Project/generate_recipes_graph.cpp:32 | `Idf`, the importance weight ln(num_recipes / n): ingredients referenced by more recipes weigh less, for any non-decreasing logarithm |
| Weights.ShortListIdfUnused | Project/generate_recipes_graph.cpp:31-33 | `Idf` gives 0 for an empty list where the source takes log of a division by zero; the value of the importance weight of a list with at most one recipe never reaches the graph |
| Weights.GraphWeightNonnegative | Project/generate_recipes_graph.cpp:29-40 | with non-negative importance weights and positive counts every accumulated weight is non-negative |
| Weights.GraphWeightUnpaired | Project/generate_recipes_graph.cpp:29-40 | an edge no list forms keeps weight 0 |
| Weights.ShortIngredientAddsNothing | Project/generate_recipes_graph.cpp:31-33 | an ingredient listing at most one recipe forms no pair and adds nothing |
| Weights.ZeroIdfAddsNothing | Project/generate_recipes_graph.cpp:32-38 | an ingredient with importance weight 0 adds 0 to every edge |
| Weights.SaturatedIngredientScenario | Project/generate_recipes_graph.cpp:29-40 | three recipes, one ingredient listing all three: idf is ln(1) = 0, the three forward pairs are formed, the backward ones are not, and every weight added is 0 |
| Weights.GraphPairCountAppend | Project/generate_recipes_graph.cpp:29 | processing two batches of ingredients in turn adds up their pair counts |
| Weights.GraphWeightAppend | Project/generate_recipes_graph.cpp:29 | processing two batches of ingredients in turn adds up their weights |
| Weights.BatchSwap | Project/generate_recipes_graph.cpp:29 | processing batch l2 before batch l1 gives the same weights and keys as l1 before l2 |
| Weights.IngredientOrderIrrelevant | Project/generate_recipes_graph.cpp:29 | any rearrangement of the ingredient lists (same multiset) gives the same weights and keys |
| Weights.NoSelfLoops | Project/generate_recipes_graph.cpp:33-38 | a list without repeated recipes forms no edge from a recipe to itself |
| Weights.DuplicateMakesSelfLoop | Project/generate_recipes_graph.cpp:33-38 | a recipe listed twice by one ingredient forms an edge to itself |
| Weights.StoredOneWay | Project/generate_recipes_graph.cpp:33-38 | within a list without repeats each edge is formed in one direction only, from the earlier position |
| Weights.RareIngredientScenario | Project/generate_recipes_graph.cpp:32-38 | ten recipes, one ingredient listing recipes 0 and 1 with counts 5 and 1: edge (0, 1) gets ln(5) / 3, edge (1, 0) nothing |
| RecipeGraph.RefCountsCover | Project/generate_recipes_graph.cpp:19-25 | after loading from zero, every recipe that appears in a list has count at least 1 |
| RecipeGraph.ReadIngredients | Project/generate_recipes_graph.cpp:19-26 | the loader loop stores each ingredient's ids in input order and adds each recipe's occurrence count to its counter |
| RecipeGraph.LoadIngredients | Project/generate_recipes_graph.cpp:17-26 | with zeroed counters, the lists equal the input and every counter equals its recipe's occurrence count |
| RecipeGraph.LoadIngredientsAsWritten | Project/generate_recipes_graph.cpp:18-26 | with uninitialised counters, every counter ends as its leftover value plus the occurrence count |
| RecipeGraph.LeftoverCountsZeroDenominator | Project/generate_recipes_graph.cpp:18-24 | leftover counters -1, -1 and the list [0, 1] leave counts whose sum is 0, the denominator of edge (0, 1); zeroed counters give 1, 1 |
| RecipeGraph.AsWrittenZeroDenominator | Project/generate_recipes_graph.cpp:18-24 | the as-written loader, run with counters left at -1, -1 on the list [0, 1], returns counts whose sum, the denominator of edge (0, 1) at line 38, is 0 |
| RecipeGraph.GetIncrement | Project/generate_recipes_graph.cpp:38 | `Get`, what `edges[a][b]` reads as: `+=` on a missing key starts from 0, the key is then present, and every other key reads as before |
| RecipeGraph.AddWeight | Project/generate_recipes_graph.cpp:38 | one update gives recipe a the key b, grows its value by w from 0 if missing, and changes no other key and no other recipe |
| RecipeGraph.AddRow | Project/generate_recipes_graph.cpp:34-39 | the inner loop visits row j's pairs in order and adds exactly that row's contributions and keys |
| RecipeGraph.AddIngredientEdges | Project/generate_recipes_graph.cpp:31-40 | the nested loops visit every pair j < k once in row-major order, add exactly the list's weight to every edge, and add key b under a exactly when the list forms (a, b) |
| RecipeGraph.AccumulateEdges | Project/generate_recipes_graph.cpp:29-42 | the loop over ingredients adds the reference graph weight to every edge and stores exactly the keys of formed edges |
| RecipeGraph.GenerateRecipesGraph | Project/generate_recipes_graph.cpp:15-42 | from empty maps: the counts are the occurrence counts, every edge weight is the reference sum over all ingredients and pairs, and key b is in edges[a] exactly when some list holds a before b |

## Left out

- File input and parsing (`Project/generate_recipes_graph.cpp:12-15, 20, 22`): the input is
  an in-memory sequence of ingredient lists, and `num_ingredients` is its length.
- The output dump (`Project/generate_recipes_graph.cpp:44-49`) is text I/O and float
  formatting. Iterating an ordered map yields the keys in ascending order. The model stores
  each map as a `map<int, real>` and does not model the iteration order.
- Timing and progress printing with `time` and `cout` (`Project/generate_recipes_graph.cpp:30, 41`)
  only report progress and are left out.
- Single-precision floats and `log` (`Project/generate_recipes_graph.cpp:32, 38`):
  - the model uses exact real arithmetic and takes the logarithm as a parameter;
  - it does not model rounding, or the integer-to-float conversion of `num_recipes`;
  - the division `num_recipes / n` of line 32 is a real division, as the source's cast
    makes it.
- Manual `new`/`delete` of the arrays (`Project/generate_recipes_graph.cpp:16, 18, 51-52`):
  the arrays are allocated by the model and reclaimed by the garbage collector.
- RecipeGraph.ReadIngredients: the counters are unbounded integers. Overflow of the source's
  signed 32-bit `int` counters at line 24 is undefined behaviour in C++. The model does not
  capture it.
- RecipeGraph.AddRow: the denominator `count[a] + count[b]` at line 38 is an unbounded
  integer sum. The source computes it in `int`, which can overflow.
- RecipeGraph.AccumulateEdges: the list length is a `nat`. The source narrows `size()` to
  `int` at line 31, which is not modelled.
- Out-of-range recipe ids, which are undefined behaviour in the source, are excluded by
  the precondition `InRange(input, num_recipes)`.

## Findings

| source | as written | input that shows it | evidently intended | confidence | as-written member | corrected member |
|---|---|---|---|---|---|---|
| Project/generate_recipes_graph.cpp:18 | `new int[num_recipes]` leaves the reference counters uninitialised, and line 24 increments whatever they held | counters holding -1 and -1, one ingredient listing recipes 0 and 1: both counts end at 0, and line 38 divides by 0 + 0 | counters start at zero, so each count is the recipe's number of occurrences | not executed | RecipeGraph.LoadIngredientsAsWritten, RecipeGraph.AsWrittenZeroDenominator | RecipeGraph.LoadIngredients |
