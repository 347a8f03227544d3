/** The catalog page (src/pages/CoursesPage.tsx): the selector state set by
    the page's buttons and search box, the filtered list it derives from the
    loaded catalog, and the sorted copy it shows. */
module CoursesPage {
  import opened Seqs
  import opened Text
  import opened Types
  import opened CourseStore

  /** The selector value that imposes no constraint. */
  const All := "All"

  /** The `filteredCourses` test: search AND category AND level AND price. */
  predicate Shown(c: Course, query: string, category: string, level: string, price: string) {
    && MatchesSearch(c, query)
    && (category == All || c.category == category)
    && (level == All || LevelName(c.level) == level)
    && (price == All || (price == "Free" && c.isFree) || (price == "Paid" && !c.isFree))
  }

  /** `filteredCourses`: the courses that pass every selector, in catalog order. */
  function FilteredCourses(courses: seq<Course>, query: string, category: string, level: string, price: string)
    : (r: seq<Course>)
    ensures forall c :: c in r ==> c in courses && Shown(c, query, category, level, price)
    ensures forall c :: c in courses && Shown(c, query, category, level, price) ==> c in r
    ensures Sublist(r, courses)
  {
    Filter((c: Course) => Shown(c, query, category, level, price), courses)
  }

  /** The comparator of `sortedCourses` is `Key(a) - Key(b)`: ascending price
      for "price-low", and descending price, rating, creation time or
      enrollment count for "price-high", "rating", "newest" and any other key. */
  function Key(sortBy: string, c: Course): real {
    if sortBy == "newest" then -(c.createdAt as real)
    else if sortBy == "rating" then -c.rating
    else if sortBy == "price-low" then c.price
    else if sortBy == "price-high" then -c.price
    else -(c.enrollmentCount as real)
  }

  /** The comparator handed to `sort` in `sortedCourses`, as written: a
      negative value puts `a` first. It is the difference of the keys. */
  function Comparator(sortBy: string, a: Course, b: Course): (r: real)
    ensures r == Key(sortBy, a) - Key(sortBy, b)
  {
    if sortBy == "newest" then (b.createdAt - a.createdAt) as real
    else if sortBy == "rating" then b.rating - a.rating
    else if sortBy == "price-low" then a.price - b.price
    else if sortBy == "price-high" then b.price - a.price
    else (b.enrollmentCount - a.enrollmentCount) as real
  }

  ghost predicate SortedOn<T>(key: T -> real, s: seq<T>) {
    forall i, j :: 0 <= i < j < |s| ==> key(s[i]) <= key(s[j])
  }

  /** Places `x` before the first element whose key is not smaller, so that
      it precedes the later elements that have the same key. */
  function Insert<T>(key: T -> real, x: T, s: seq<T>): (r: seq<T>)
    ensures |r| == |s| + 1
    ensures multiset(r) == multiset(s) + multiset{x}
    ensures forall y :: y in r ==> y == x || y in s
  {
    if s == [] then [x]
    else if key(x) <= key(s[0]) then [x] + s
    else
      assert s == [s[0]] + s[1..];
      [s[0]] + Insert(key, x, s[1..])
  }

  lemma {:induction false} InsertSorted<T>(key: T -> real, x: T, s: seq<T>)
    requires SortedOn(key, s)
    ensures SortedOn(key, Insert(key, x, s))
  {
    if s != [] && key(x) > key(s[0]) {
      var tail := s[1..];
      assert SortedOn(key, tail) by {
        forall i, j | 0 <= i < j < |tail| ensures key(tail[i]) <= key(tail[j]) {
          assert tail[i] == s[i + 1] && tail[j] == s[j + 1];
        }
      }
      InsertSorted(key, x, tail);
      var rest := Insert(key, x, tail);
      assert forall y :: y in tail ==> key(s[0]) <= key(y) by {
        forall y | y in tail ensures key(s[0]) <= key(y) {
          var j :| 0 <= j < |tail| && tail[j] == y;
          assert s[j + 1] == y;
        }
      }
      var r := [s[0]] + rest;
      forall i, j | 0 <= i < j < |r| ensures key(r[i]) <= key(r[j]) {
        if i == 0 {
          assert r[j] == rest[j - 1];
          assert r[j] in rest;
        } else {
          assert r[i] == rest[i - 1] && r[j] == rest[j - 1];
        }
      }
    }
  }

  /** Insertion sort by `key`: a sorted permutation of its argument. */
  function SortOn<T>(key: T -> real, s: seq<T>): (r: seq<T>)
    ensures |r| == |s|
    ensures multiset(r) == multiset(s)
    ensures SortedOn(key, r)
  {
    if s == [] then []
    else
      assert s == [s[0]] + s[1..];
      var rest := SortOn(key, s[1..]);
      InsertSorted(key, s[0], rest);
      Insert(key, s[0], rest)
  }

  ghost predicate SortedBy(sortBy: string, s: seq<Course>) {
    SortedOn((c: Course) => Key(sortBy, c), s)
  }

  /** `[...filteredCourses].sort(...)`: a sorted permutation of its argument. */
  function SortCourses(sortBy: string, s: seq<Course>): (r: seq<Course>)
    ensures |r| == |s|
    ensures multiset(r) == multiset(s)
    ensures SortedBy(sortBy, r)
  {
    SortOn((c: Course) => Key(sortBy, c), s)
  }

  /** What each sort option means for neighbouring courses of the result. */
  lemma {:induction false} SortOrders(sortBy: string, s: seq<Course>, i: nat, j: nat)
    requires i < j < |s|
    ensures var r := SortCourses(sortBy, s);
      && (sortBy == "price-low" ==> r[i].price <= r[j].price)
      && (sortBy == "price-high" ==> r[i].price >= r[j].price)
      && (sortBy == "rating" ==> r[i].rating >= r[j].rating)
      && (sortBy == "newest" ==> r[i].createdAt >= r[j].createdAt)
      && (sortBy !in {"price-low", "price-high", "rating", "newest"} ==>
            r[i].enrollmentCount >= r[j].enrollmentCount)
  {
    var r := SortCourses(sortBy, s);
    assert Key(sortBy, r[i]) <= Key(sortBy, r[j]);
  }

  /** No pair of the sorted list is out of order by the comparator. */
  lemma SortAgreesWithComparator(sortBy: string, s: seq<Course>, i: nat, j: nat)
    requires i < j < |s|
    ensures var r := SortCourses(sortBy, s); Comparator(sortBy, r[i], r[j]) <= 0.0
  {
    var r := SortCourses(sortBy, s);
    assert Key(sortBy, r[i]) <= Key(sortBy, r[j]);
  }

  /** Search and every selector at its neutral value keep the whole catalog. */
  lemma ClearedFiltersShowAll(courses: seq<Course>)
    ensures FilteredCourses(courses, "", All, All, All) == courses
  {
    forall c | c in courses ensures Shown(c, "", All, All, All) {
      ContainsEmpty(ToLower(c.title));
      assert ToLower("") == "";
    }
    FilterKeepsAll((c: Course) => Shown(c, "", All, All, All), courses);
  }

  /** The search ignores the case of the query. */
  lemma SearchIgnoresQueryCase(c: Course, query: string)
    ensures MatchesSearch(c, ToLower(query)) == MatchesSearch(c, query)
  {
    ToLowerIdempotent(query);
  }

  /** "Free" keeps only free courses, "Paid" only paid ones, and any other
      price value besides "All" keeps none. */
  lemma PriceSelector(c: Course, query: string, category: string, level: string, price: string)
    ensures price == "Free" && Shown(c, query, category, level, price) ==> c.isFree
    ensures price == "Paid" && Shown(c, query, category, level, price) ==> !c.isFree
    ensures price !in {All, "Free", "Paid"} ==> !Shown(c, query, category, level, price)
  {
  }

  /** The page's selector state. */
  class CatalogFilters {
    var searchQuery: string
    var selectedCategory: string
    var selectedLevel: string
    var selectedPrice: string
    var sortBy: string
    var showFilters: bool

    constructor ()
      ensures searchQuery == "" && selectedCategory == All && selectedLevel == All && selectedPrice == All
      ensures sortBy == "popular" && !showFilters
    {
      searchQuery, selectedCategory, selectedLevel, selectedPrice := "", All, All, All;
      sortBy, showFilters := "popular", false;
    }

    /** The list the page derives from the loaded catalog. */
    function Filtered(courses: seq<Course>): seq<Course>
      reads this
    {
      FilteredCourses(courses, searchQuery, selectedCategory, selectedLevel, selectedPrice)
    }

    /** The sorted copy the page renders; `Filtered` itself is not reordered. */
    function Sorted(courses: seq<Course>): (r: seq<Course>)
      reads this
      ensures multiset(r) == multiset(Filtered(courses))
      ensures SortedBy(sortBy, r)
    {
      SortCourses(sortBy, Filtered(courses))
    }

    method SetSearchQuery(q: string)
      modifies this
      ensures searchQuery == q
      ensures selectedCategory == old(selectedCategory) && selectedLevel == old(selectedLevel)
      ensures selectedPrice == old(selectedPrice) && sortBy == old(sortBy) && showFilters == old(showFilters)
    {
      searchQuery := q;
    }

    method SetSelectedCategory(category: string)
      modifies this
      ensures selectedCategory == category
      ensures searchQuery == old(searchQuery) && selectedLevel == old(selectedLevel)
      ensures selectedPrice == old(selectedPrice) && sortBy == old(sortBy) && showFilters == old(showFilters)
    {
      selectedCategory := category;
    }

    method SetSelectedLevel(level: string)
      modifies this
      ensures selectedLevel == level
      ensures searchQuery == old(searchQuery) && selectedCategory == old(selectedCategory)
      ensures selectedPrice == old(selectedPrice) && sortBy == old(sortBy) && showFilters == old(showFilters)
    {
      selectedLevel := level;
    }

    method SetSelectedPrice(price: string)
      modifies this
      ensures selectedPrice == price
      ensures searchQuery == old(searchQuery) && selectedCategory == old(selectedCategory)
      ensures selectedLevel == old(selectedLevel) && sortBy == old(sortBy) && showFilters == old(showFilters)
    {
      selectedPrice := price;
    }

    method SetSortBy(key: string)
      modifies this
      ensures sortBy == key
      ensures searchQuery == old(searchQuery) && selectedCategory == old(selectedCategory)
      ensures selectedLevel == old(selectedLevel) && selectedPrice == old(selectedPrice)
      ensures showFilters == old(showFilters)
    {
      sortBy := key;
    }

    /** The Filters button shows or hides the selector panel. */
    method ToggleShowFilters()
      modifies this
      ensures showFilters == !old(showFilters)
      ensures searchQuery == old(searchQuery) && selectedCategory == old(selectedCategory)
      ensures selectedLevel == old(selectedLevel) && selectedPrice == old(selectedPrice)
      ensures sortBy == old(sortBy)
    {
      showFilters := !showFilters;
    }

    /** The Clear Filters button: every selector back to "All" and an empty
        query. The sort order and the panel's visibility are left alone. */
    method ClearFilters()
      modifies this
      ensures selectedCategory == All && selectedLevel == All && selectedPrice == All && searchQuery == ""
      ensures sortBy == old(sortBy) && showFilters == old(showFilters)
      ensures forall courses: seq<Course> :: Filtered(courses) == courses
    {
      selectedCategory := All;
      selectedLevel := All;
      selectedPrice := All;
      searchQuery := "";
      forall courses: seq<Course> ensures Filtered(courses) == courses {
        ClearedFiltersShowAll(courses);
      }
    }
  }
}
