/** The bottom navigation bar: five items, each highlighted when the current
    view's name starts with the item's view name. */
module BottomNavBar {
  import opened Base
  import opened Types

  /** The items in bar order. */
  const NavItems: seq<View> := [DashboardView, ExercisesView, EncyclopediaView, ZenView, ProgressView]

  const Labels: seq<string> := ["Inicio", "Ejercicios", "Enciclopedia", "Espacio Zen", "Progreso"]

  /** `currentView.startsWith(view)` */
  predicate IsActive(current: View, item: View)
    ensures current == item ==> IsActive(current, item)
    ensures IsActive(current, item) ==> |ViewName(item)| <= |ViewName(current)|
  {
    StartsWith(ViewName(current), ViewName(item))
  }

  lemma MismatchNotPrefix(c: string, n: string, k: nat)
    requires k < |c| && k < |n| && c[k] != n[k]
    ensures !StartsWith(c, n)
  {
  }

  /** For the items of the bar, the prefix rule amounts to equality: no view
      name extends another item's name. */
  lemma ActiveIffSame(current: View, item: View)
    requires item in NavItems
    ensures IsActive(current, item) <==> current == item
  {
    var c, n := ViewName(current), ViewName(item);
    if current != item {
      if c[0] != n[0] {
        MismatchNotPrefix(c, n, 0);
      } else if c[1] != n[1] {
        MismatchNotPrefix(c, n, 1);
      } else {
        MismatchNotPrefix(c, n, 8);
      }
    }
  }

  /** A view of the bar highlights exactly its own item; the detail and
      reminders views highlight none. So no view highlights two items. */
  lemma ActiveRule(current: View)
    ensures forall i :: 0 <= i < |NavItems| ==> (IsActive(current, NavItems[i]) <==> NavItems[i] == current)
    ensures forall i, j :: 0 <= i < j < |NavItems| && IsActive(current, NavItems[i]) ==> !IsActive(current, NavItems[j])
    ensures current in NavItems ==> exists i :: 0 <= i < |NavItems| && IsActive(current, NavItems[i])
    ensures current in {ExerciseDetailView, ArticleDetailView, RemindersView} ==>
      forall i :: 0 <= i < |NavItems| ==> !IsActive(current, NavItems[i])
  {
    forall i | 0 <= i < |NavItems| ensures IsActive(current, NavItems[i]) <==> NavItems[i] == current {
      ActiveIffSame(current, NavItems[i]);
    }
  }

  /** `onClick`: the item's view becomes current, which highlights that item
      and no other. */
  function Clicked(item: View): (v: View)
    ensures item in NavItems ==> forall i :: 0 <= i < |NavItems| ==> (IsActive(v, NavItems[i]) <==> NavItems[i] == item)
  {
    ActiveRule(item);
    item
  }
}
