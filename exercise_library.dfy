/** The exercise library: the category filter, its buttons and the empty state. */
module ExerciseLibrary {
  import opened Base
  import opened Types

  /** `ExerciseCategory | 'All'` */
  datatype CategoryFilter = All | Only(category: ExerciseCategory)

  /** The library opens unfiltered. */
  const InitialFilter: CategoryFilter := All

  /** `filteredExercises` */
  function FilterExercises(exercises: seq<Exercise>, selected: CategoryFilter): (r: seq<Exercise>)
    ensures selected == All ==> r == exercises
    ensures selected.Only? ==> forall i :: 0 <= i < |r| ==> r[i] in exercises && r[i].category == selected.category
    ensures selected.Only? ==>
      forall i :: 0 <= i < |exercises| && exercises[i].category == selected.category ==> exercises[i] in r
  {
    if selected == All then exercises
    else Filter(exercises, (e: Exercise) => e.category == selected.category)
  }

  /** Every filter keeps the library order. */
  lemma FilterKeepsOrder(exercises: seq<Exercise>, selected: CategoryFilter)
    ensures IsSubsequence(FilterExercises(exercises, selected), exercises)
  {
    if selected == All {
      SubsequenceOfItself(exercises);
    } else {
      FilterIsSubsequence(exercises, (e: Exercise) => e.category == selected.category);
    }
  }

  lemma {:induction false} SubsequenceOfItself<T>(s: seq<T>)
    ensures IsSubsequence(s, s)
    decreases |s|
  {
    if s != [] {
      SubsequenceOfItself(s[1..]);
    }
  }

  /** The buttons in screen order: "Todos", Masajes, then the face parts. */
  const Buttons: seq<CategoryFilter> := [All, Only(Masajes), Only(Frente), Only(Ojos), Only(Mejillas), Only(Boca)]

  /** A button is highlighted when its value is the selected one. */
  predicate IsActiveButton(selected: CategoryFilter, button: CategoryFilter) {
    selected == button
  }

  /** Whatever is selected, exactly one button is highlighted, and clicking a
      button highlights that button. */
  lemma ExactlyOneActive(selected: CategoryFilter)
    ensures exists i :: 0 <= i < |Buttons| && IsActiveButton(selected, Buttons[i])
    ensures forall i, j ::
      (0 <= i < |Buttons| && 0 <= j < |Buttons| && IsActiveButton(selected, Buttons[i]) && IsActiveButton(selected, Buttons[j]))
      ==> i == j
  {
    match selected
    case All => assert Buttons[0] == All;
    case Only(c) =>
      match c
      case Masajes => assert Buttons[1] == selected;
      case Frente => assert Buttons[2] == selected;
      case Ojos => assert Buttons[3] == selected;
      case Mejillas => assert Buttons[4] == selected;
      case Boca => assert Buttons[5] == selected;
  }

  /** The "no exercises" panel replaces the list when the filter keeps nothing. */
  predicate ShowsEmptyState(exercises: seq<Exercise>, selected: CategoryFilter) {
    |FilterExercises(exercises, selected)| == 0
  }

  /** The empty state shows exactly when no exercise of the selected category
      exists, or, with "Todos", when there are no exercises at all. */
  lemma EmptyStateIff(exercises: seq<Exercise>, selected: CategoryFilter)
    ensures selected == All ==> (ShowsEmptyState(exercises, selected) <==> exercises == [])
    ensures selected.Only? ==> (ShowsEmptyState(exercises, selected) <==>
      forall i :: 0 <= i < |exercises| ==> exercises[i].category != selected.category)
  {
    if selected.Only? {
      FilterEmptyIff(exercises, (e: Exercise) => e.category == selected.category);
    }
  }
}
