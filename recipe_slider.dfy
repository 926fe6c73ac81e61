/** The featured-recipes carousel of
    frontend/my-react-app/src/components/RecipeSlider.jsx: a window of three
    recipes that moves one step forwards or backwards round the list, and stays
    put when the whole list fits in it. */
module RecipeSlider {
  import opened Wrappers
  import opened RecipeSchema
  import Sequences

  /** How many recipes the carousel shows at once. */
  const WindowSize: nat := 3

  /** A number below 2n wraps past n at most once. */
  lemma ModWrap(x: nat, n: nat)
    requires n > 0
    ensures x < 2 * n ==> x % n == if x < n then x else x - n
  {
    if n <= x < 2 * n {
      assert x == 1 * n + (x - n);
    }
  }

  /** The index `nextSlide` moves to: one on, wrapping from the last to the first. */
  function NextIndex(i: nat, n: nat): (j: nat)
    requires n > 0
    ensures j < n
    ensures i < n ==> j == if i == n - 1 then 0 else i + 1
  {
    ModWrap(i + 1, n);
    (i + 1) % n
  }

  /** The index `prevSlide` moves to: one back, wrapping from the first to the last. */
  function PrevIndex(i: nat, n: nat): (j: nat)
    requires n > 0
    ensures j < n
    ensures i < n ==> j == if i == 0 then n - 1 else i - 1
  {
    ModWrap(i - 1 + n, n);
    (i - 1 + n) % n
  }

  /** Stepping back undoes stepping on, and stepping on undoes stepping back. */
  lemma NextPrevInverse(i: nat, n: nat)
    requires i < n
    ensures PrevIndex(NextIndex(i, n), n) == i
    ensures NextIndex(PrevIndex(i, n), n) == i
  {
  }

  /** The recipes the carousel shows when it stands at index i. */
  function Window(recipes: seq<Recipe>, i: nat): seq<Recipe> {
    if |recipes| <= WindowSize then recipes
    else seq(WindowSize, k requires 0 <= k < WindowSize => recipes[(i + k) % |recipes|])
  }

  /** One step on shifts the window by one: what was second and third comes
      first and second. */
  lemma WindowShift(recipes: seq<Recipe>, i: nat)
    requires |recipes| > WindowSize && i < |recipes|
    ensures var n := |recipes|; var w, v := Window(recipes, i), Window(recipes, NextIndex(i, n));
      v[0] == w[1] && v[1] == w[2]
  {
    var n := |recipes|;
    var j := NextIndex(i, n);
    var w, v := Window(recipes, i), Window(recipes, j);
    assert (j + 0) % n == (i + 1) % n by {
      WindowIndex(i, 1, n);
      WindowIndex(j, 0, n);
    }
    assert (j + 1) % n == (i + 2) % n by {
      WindowIndex(i, 2, n);
      WindowIndex(j, 1, n);
    }
    assert w[1] == recipes[(i + 1) % n] && w[2] == recipes[(i + 2) % n];
    assert v[0] == recipes[(j + 0) % n] && v[1] == recipes[(j + 1) % n];
  }

  /** Over more than three recipes that are all different, the window shows
      three different recipes. */
  lemma WindowDistinct(recipes: seq<Recipe>, i: nat)
    requires |recipes| > WindowSize && i < |recipes| && Sequences.Distinct(recipes)
    ensures Sequences.Distinct(Window(recipes, i))
  {
    var n := |recipes|;
    var w := Window(recipes, i);
    forall a, b | 0 <= a < b < WindowSize ensures w[a] != w[b] {
      assert (i + a) % n != (i + b) % n by {
        WindowIndex(i, a, n);
        WindowIndex(i, b, n);
      }
    }
  }

  /** The position k steps on from an index in range, for k below n. */
  lemma WindowIndex(i: nat, k: nat, n: nat)
    requires i < n && k < n
    ensures (i + k) % n == if i + k < n then i + k else i + k - n
  {
    ModWrap(i + k, n);
  }

  /** The carousel's state. */
  class Slider {
    var recipes: seq<Recipe>
    var currentIndex: nat

    constructor ()
      ensures recipes == [] && currentIndex == 0
    {
      recipes := [];
      currentIndex := 0;
    }

    /** `fetchRecipes`: the recipes getRecipes returned, or when it threw
        (`data` is None) the component's built-in sample recipes `fallback`. The
        index is not reset. */
    method LoadRecipes(data: Option<seq<Recipe>>, fallback: seq<Recipe>)
      modifies this`recipes
      ensures recipes == if data.Some? then data.value else fallback
    {
      if data.Some? {
        recipes := data.value;
      } else {
        recipes := fallback;
      }
    }

    /** `nextSlide` (also what the five-second timer calls). */
    method NextSlide()
      modifies this`currentIndex
      ensures |recipes| <= WindowSize ==> currentIndex == old(currentIndex)
      ensures |recipes| > WindowSize ==> currentIndex == NextIndex(old(currentIndex), |recipes|)
    {
      if |recipes| <= WindowSize {
        return;
      }
      currentIndex := (currentIndex + 1) % |recipes|;
    }

    /** `prevSlide`. */
    method PrevSlide()
      modifies this`currentIndex
      ensures |recipes| <= WindowSize ==> currentIndex == old(currentIndex)
      ensures |recipes| > WindowSize ==> currentIndex == PrevIndex(old(currentIndex), |recipes|)
    {
      if |recipes| <= WindowSize {
        return;
      }
      currentIndex := (currentIndex - 1 + |recipes|) % |recipes|;
    }

    /** `getVisibleRecipes`: the whole list when it has at most three recipes,
        otherwise the three from the current index on, wrapping round. */
    method GetVisibleRecipes() returns (visible: seq<Recipe>)
      ensures |recipes| <= WindowSize ==> visible == recipes
      ensures |recipes| > WindowSize ==>
        && |visible| == WindowSize
        && forall k :: 0 <= k < WindowSize ==> visible[k] == recipes[(currentIndex + k) % |recipes|]
      ensures visible == Window(recipes, currentIndex)
    {
      if |recipes| <= WindowSize {
        return recipes;
      }
      visible := [];
      for i := 0 to WindowSize
        invariant |visible| == i
        invariant forall k :: 0 <= k < i ==> visible[k] == recipes[(currentIndex + k) % |recipes|]
      {
        var index := (currentIndex + i) % |recipes|;
        visible := visible + [recipes[index]];
      }
    }
  }

  /** Stepping on and then back shows the same recipes again. */
  method NextThenPrevScenario(s: Slider) returns (before: seq<Recipe>, after: seq<Recipe>)
    requires s.currentIndex < |s.recipes| || s.currentIndex == 0
    modifies s
    ensures before == after
  {
    before := s.GetVisibleRecipes();
    var start := s.currentIndex;
    s.NextSlide();
    s.PrevSlide();
    if |s.recipes| > WindowSize {
      NextPrevInverse(start, |s.recipes|);
    }
    after := s.GetVisibleRecipes();
  }
}
