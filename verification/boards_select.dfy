/** The board picker of lib/boards-select/view.js, without its DOM: the
    choice list that `filterBoardsChoices` rebuilds (a disabled placeholder,
    then one option group per vendor), and the selected-set updates made by
    the `onchange` handler and by `handleRemove`.

    The board table (`allBoards`, an object keyed by board id) is a sequence
    of boards in the object's key order. */
module BoardsSelect {
  import opened Base
  import opened Strings

  datatype Board = Board(id: string, name: string, vendor: string)

  /** An `<option>`: its `value` is the board id, its text the board name. */
  datatype BoardOption = BoardOption(value: string, text: string)

  /** A child of the `<select>`: the default option or an `<optgroup>`. */
  datatype Choice =
    | DefaultOption(text: string, selected: bool, disabled: bool)
    | OptGroup(vendor: string, options: seq<BoardOption>)

  const DefaultText := "-- choose a board (one at a time) --"

  /** The placeholder that always comes first: selected and disabled. */
  const Placeholder := DefaultOption(DefaultText, true, true)

  function BoardName(b: Board): string { b.name }

  function VendorName(v: string): string { v }

  function OptionOf(b: Board): BoardOption { BoardOption(b.id, b.name) }

  /** Boards that are still offered: those not selected yet. */
  function IsOffered(selected: set<string>): Board -> bool
  {
    (b: Board) => b.id !in selected
  }

  /** Offered boards of one vendor. */
  function InGroup(selected: set<string>, vendor: string): Board -> bool
  {
    (b: Board) => b.id !in selected && b.vendor == vendor
  }

  /** The options of the group labelled `vendor`, in the order of `boards`. */
  function GroupOptions(boards: seq<Board>, selected: set<string>, vendor: string): seq<BoardOption>
  {
    Map(Filter(boards, InGroup(selected, vendor)), OptionOf)
  }

  ghost predicate Unique(s: seq<string>)
  {
    forall x :: multiset(s)[x] <= 1
  }

  /** The keys of the `groups` object in creation order: the vendors of the
      offered boards, each at its first appearance. */
  function Vendors(boards: seq<Board>, selected: set<string>): (r: seq<string>)
    ensures Unique(r)
    ensures forall v :: v in r <==> exists i :: 0 <= i < |boards| && boards[i].id !in selected && boards[i].vendor == v
  {
    if |boards| == 0 then []
    else
      var last := boards[|boards| - 1];
      var earlier := Vendors(boards[..|boards| - 1], selected);
      assert forall i :: 0 <= i < |boards| - 1 ==> boards[..|boards| - 1][i] == boards[i];
      if last.id !in selected && last.vendor !in earlier then earlier + [last.vendor] else earlier
  }

  /** One option group per vendor name, in the order given. */
  function Groups(vendors: seq<string>, boards: seq<Board>, selected: set<string>): (r: seq<Choice>)
    ensures |r| == |vendors|
    ensures forall i :: 0 <= i < |r| ==> r[i] == OptGroup(vendors[i], GroupOptions(boards, selected, vendors[i]))
  {
    Map(vendors, v => OptGroup(v, GroupOptions(boards, selected, v)))
  }

  /** The choice list `filterBoardsChoices` leaves in the `<select>`: boards
      sorted by name, selected ones dropped, grouped by vendor, groups in
      vendor-name order, behind the placeholder. */
  function ChoiceList(allBoards: seq<Board>, selected: set<string>): (r: seq<Choice>)
    ensures |r| >= 1 && r[0] == Placeholder
    ensures forall i :: 1 <= i < |r| ==> r[i].OptGroup?
  {
    var sorted := SortBy(allBoards, BoardName);
    var vendorNames := SortBy(Vendors(sorted, selected), VendorName);
    [Placeholder] + Groups(vendorNames, sorted, selected)
  }

  /** Every option of a choice list, group after group. */
  function AllOptions(choices: seq<Choice>): seq<BoardOption>
  {
    if |choices| == 0 then []
    else (if choices[0].OptGroup? then choices[0].options else []) + AllOptions(choices[1..])
  }

  /** `filterBoardsChoices` as the source writes it: one pass over the sorted
      board ids filling a vendor-keyed table of groups, then the groups
      appended in sorted vendor order behind the placeholder. */
  method FilterBoardsChoices(allBoards: seq<Board>, selected: set<string>) returns (r: seq<Choice>)
    ensures r == ChoiceList(allBoards, selected)
  {
    var sorted := SortBy(allBoards, BoardName);
    var groups, vendorOrder := CollectGroups(sorted, selected);
    var vendorNames := SortBy(vendorOrder, VendorName);
    forall v | v in vendorNames
      ensures v in groups
    {
      assert v in multiset(vendorNames);
    }
    r := AppendGroups(vendorNames, groups, sorted, selected);
  }

  /** The loop over the sorted boards: skips selected boards, creates a
      group the first time a vendor is met, appends the option to it. */
  method CollectGroups(sorted: seq<Board>, selected: set<string>)
    returns (groups: map<string, seq<BoardOption>>, vendorOrder: seq<string>)
    ensures vendorOrder == Vendors(sorted, selected)
    ensures forall v :: v in groups <==> v in vendorOrder
    ensures forall v :: v in groups ==> groups[v] == GroupOptions(sorted, selected, v)
  {
    groups := map[];
    vendorOrder := [];
    var i := 0;
    while i < |sorted|
      invariant 0 <= i <= |sorted|
      invariant Collected(sorted[..i], selected, groups, vendorOrder)
    {
      var board := sorted[i];
      if board.id !in selected {
        if board.vendor !in groups {
          OpenGroup(sorted, i, selected, groups, vendorOrder);
          groups := groups[board.vendor := []];
          vendorOrder := vendorOrder + [board.vendor];
        } else {
          KeepGroup(sorted, i, selected, groups, vendorOrder);
        }
        AppendOption(sorted, i, selected, groups, vendorOrder);
        groups := groups[board.vendor := groups[board.vendor] + [BoardOption(board.id, board.name)]];
      } else {
        SkipStep(sorted, i, selected, groups, vendorOrder);
      }
      i := i + 1;
    }
    assert sorted[..i] == sorted;
  }

  /** The table of groups and its key order after the loop has seen `prefix`. */
  ghost predicate Collected(prefix: seq<Board>, selected: set<string>,
                            groups: map<string, seq<BoardOption>>, vendorOrder: seq<string>)
  {
    && vendorOrder == Vendors(prefix, selected)
    && (forall v :: v in groups <==> v in vendorOrder)
    && (forall v :: v in groups ==> groups[v] == GroupOptions(prefix, selected, v))
  }

  /** The table in the middle of a loop turn for the offered board
      `sorted[i]`: the key order already counts it, the groups do not yet. */
  ghost predicate Pending(sorted: seq<Board>, i: nat, selected: set<string>,
                          groups: map<string, seq<BoardOption>>, vendorOrder: seq<string>)
  {
    && i < |sorted|
    && sorted[i].vendor in groups
    && vendorOrder == Vendors(sorted[..i + 1], selected)
    && (forall v :: v in groups <==> v in vendorOrder)
    && (forall v :: v in groups ==> groups[v] == GroupOptions(sorted[..i], selected, v))
  }

  /** A selected board leaves the table as it is. */
  lemma SkipStep(sorted: seq<Board>, i: nat, selected: set<string>,
                 groups: map<string, seq<BoardOption>>, vendorOrder: seq<string>)
    requires i < |sorted| && sorted[i].id in selected
    requires Collected(sorted[..i], selected, groups, vendorOrder)
    ensures Collected(sorted[..i + 1], selected, groups, vendorOrder)
  {
    SkipKeepsVendors(sorted, i, selected);
    forall v
      ensures GroupOptions(sorted[..i + 1], selected, v) == GroupOptions(sorted[..i], selected, v)
    {
      SkipKeepsGroup(sorted, i, selected, v);
    }
    CollectedSameTable(sorted[..i], sorted[..i + 1], selected, groups, vendorOrder);
  }

  /** Two board sequences with the same vendors and the same groups are
      collected into the same table. */
  lemma CollectedSameTable(p: seq<Board>, q: seq<Board>, selected: set<string>,
                           groups: map<string, seq<BoardOption>>, vendorOrder: seq<string>)
    requires Vendors(q, selected) == Vendors(p, selected)
    requires forall v :: GroupOptions(q, selected, v) == GroupOptions(p, selected, v)
    requires Collected(p, selected, groups, vendorOrder)
    ensures Collected(q, selected, groups, vendorOrder)
  {
  }

  /** A selected board adds no vendor. */
  lemma SkipKeepsVendors(sorted: seq<Board>, i: nat, selected: set<string>)
    requires i < |sorted| && sorted[i].id in selected
    ensures Vendors(sorted[..i + 1], selected) == Vendors(sorted[..i], selected)
  {
    VendorsStep(sorted, i, selected);
  }

  /** A selected board adds no option to any group. */
  lemma SkipKeepsGroup(sorted: seq<Board>, i: nat, selected: set<string>, vendor: string)
    requires i < |sorted| && sorted[i].id in selected
    ensures GroupOptions(sorted[..i + 1], selected, vendor) == GroupOptions(sorted[..i], selected, vendor)
  {
    GroupOptionsStep(sorted, i, selected, vendor);
    assert !InGroup(selected, vendor)(sorted[i]);
  }

  /** The first offered board of a vendor opens an empty group for it and
      puts the vendor last in the key order. */
  lemma OpenGroup(sorted: seq<Board>, i: nat, selected: set<string>,
                  groups: map<string, seq<BoardOption>>, vendorOrder: seq<string>)
    requires i < |sorted| && sorted[i].id !in selected && sorted[i].vendor !in groups
    requires Collected(sorted[..i], selected, groups, vendorOrder)
    ensures Pending(sorted, i, selected, groups[sorted[i].vendor := []], vendorOrder + [sorted[i].vendor])
  {
    VendorsStep(sorted, i, selected);
    NoGroupYet(sorted[..i], selected, sorted[i].vendor);
  }

  /** A later offered board of a vendor finds its group open. */
  lemma KeepGroup(sorted: seq<Board>, i: nat, selected: set<string>,
                  groups: map<string, seq<BoardOption>>, vendorOrder: seq<string>)
    requires i < |sorted| && sorted[i].id !in selected && sorted[i].vendor in groups
    requires Collected(sorted[..i], selected, groups, vendorOrder)
    ensures Pending(sorted, i, selected, groups, vendorOrder)
  {
    VendorsStep(sorted, i, selected);
  }

  /** Appending the board's option to its vendor's group completes the turn. */
  lemma AppendOption(sorted: seq<Board>, i: nat, selected: set<string>,
                     groups: map<string, seq<BoardOption>>, vendorOrder: seq<string>)
    requires Pending(sorted, i, selected, groups, vendorOrder)
    requires sorted[i].id !in selected
    ensures Collected(sorted[..i + 1], selected,
                      groups[sorted[i].vendor := groups[sorted[i].vendor] + [OptionOf(sorted[i])]], vendorOrder)
  {
    var groups' := groups[sorted[i].vendor := groups[sorted[i].vendor] + [OptionOf(sorted[i])]];
    forall v | v in groups'
      ensures groups'[v] == GroupOptions(sorted[..i + 1], selected, v)
    {
      GroupOptionsStep(sorted, i, selected, v);
    }
  }

  /** `VendorsSnoc` for the next board of a sequence. */
  lemma VendorsStep(sorted: seq<Board>, i: nat, selected: set<string>)
    requires i < |sorted|
    ensures Vendors(sorted[..i + 1], selected) ==
            if sorted[i].id !in selected && sorted[i].vendor !in Vendors(sorted[..i], selected)
            then Vendors(sorted[..i], selected) + [sorted[i].vendor]
            else Vendors(sorted[..i], selected)
  {
    assert sorted[..i + 1] == sorted[..i] + [sorted[i]];
    VendorsSnoc(sorted[..i], sorted[i], selected);
  }

  /** `GroupOptionsSnoc` for the next board of a sequence. */
  lemma GroupOptionsStep(sorted: seq<Board>, i: nat, selected: set<string>, vendor: string)
    requires i < |sorted|
    ensures GroupOptions(sorted[..i + 1], selected, vendor) ==
            GroupOptions(sorted[..i], selected, vendor) + (if InGroup(selected, vendor)(sorted[i]) then [OptionOf(sorted[i])] else [])
  {
    assert sorted[..i + 1] == sorted[..i] + [sorted[i]];
    GroupOptionsSnoc(sorted[..i], sorted[i], selected, vendor);
  }

  /** `Vendors` grows by the appended board's vendor exactly when the board
      is offered and its vendor is new. */
  lemma VendorsSnoc(prefix: seq<Board>, board: Board, selected: set<string>)
    ensures Vendors(prefix + [board], selected) ==
            if board.id !in selected && board.vendor !in Vendors(prefix, selected)
            then Vendors(prefix, selected) + [board.vendor]
            else Vendors(prefix, selected)
  {
    assert (prefix + [board])[..|prefix|] == prefix;
  }

  /** The loop over the sorted vendor names: appends each group. */
  method AppendGroups(vendorNames: seq<string>, groups: map<string, seq<BoardOption>>,
                      sorted: seq<Board>, selected: set<string>) returns (r: seq<Choice>)
    requires forall v :: v in vendorNames ==> v in groups && groups[v] == GroupOptions(sorted, selected, v)
    ensures r == [Placeholder] + Groups(vendorNames, sorted, selected)
  {
    r := [Placeholder];
    var k := 0;
    while k < |vendorNames|
      invariant 0 <= k <= |vendorNames|
      invariant |r| == k + 1 && r[0] == Placeholder
      invariant forall j :: 0 <= j < k ==> r[j + 1] == OptGroup(vendorNames[j], GroupOptions(sorted, selected, vendorNames[j]))
    {
      var v := vendorNames[k];
      r := r + [OptGroup(v, groups[v])];
      k := k + 1;
    }
  }

  /** A vendor with no offered board so far has an empty group. */
  lemma NoGroupYet(boards: seq<Board>, selected: set<string>, vendor: string)
    requires vendor !in Vendors(boards, selected)
    ensures GroupOptions(boards, selected, vendor) == []
  {
  }

  /** Appending a board extends its own vendor's group by one option and
      leaves every other group as it was. */
  lemma GroupOptionsSnoc(boards: seq<Board>, board: Board, selected: set<string>, vendor: string)
    ensures Filter(boards + [board], InGroup(selected, vendor)) ==
            Filter(boards, InGroup(selected, vendor)) + (if InGroup(selected, vendor)(board) then [board] else [])
    ensures GroupOptions(boards + [board], selected, vendor) ==
            GroupOptions(boards, selected, vendor) + (if InGroup(selected, vendor)(board) then [OptionOf(board)] else [])
  {
    var p := InGroup(selected, vendor);
    FilterAppend(boards, [board], p);
    assert Filter([board], p) == if p(board) then [board] else [];
    MapAppend(Filter(boards, p), Filter([board], p), OptionOf);
  }

  /** The boards of the groups for `vendors`, group after group. */
  function FlatBoards(vendors: seq<string>, boards: seq<Board>, selected: set<string>): seq<Board>
  {
    if |vendors| == 0 then []
    else Filter(boards, InGroup(selected, vendors[0])) + FlatBoards(vendors[1..], boards, selected)
  }

  lemma {:induction false} AllOptionsOfGroups(vendors: seq<string>, boards: seq<Board>, selected: set<string>)
    ensures AllOptions(Groups(vendors, boards, selected)) == Map(FlatBoards(vendors, boards, selected), OptionOf)
  {
    var g := Groups(vendors, boards, selected);
    if |vendors| > 0 {
      assert g[1..] == Groups(vendors[1..], boards, selected);
      AllOptionsOfGroups(vendors[1..], boards, selected);
      MapAppend(Filter(boards, InGroup(selected, vendors[0])), FlatBoards(vendors[1..], boards, selected), OptionOf);
    }
  }

  /** Each board is counted once per group of its vendor: with unique vendor
      names, as often as it occurs in `boards`, or not at all. */
  lemma {:induction false} FlatBoardsCount(vendors: seq<string>, boards: seq<Board>, selected: set<string>, b: Board)
    requires Unique(vendors)
    ensures multiset(FlatBoards(vendors, boards, selected))[b] ==
            if b.id !in selected && b.vendor in vendors then multiset(boards)[b] else 0
  {
    if |vendors| > 0 {
      assert vendors == [vendors[0]] + vendors[1..];
      assert forall x :: multiset(vendors[1..])[x] <= multiset(vendors)[x];
      assert vendors[0] !in vendors[1..] by {
        assert multiset(vendors)[vendors[0]] == 1 + multiset(vendors[1..])[vendors[0]];
      }
      FlatBoardsCount(vendors[1..], boards, selected, b);
      FilterCount(boards, InGroup(selected, vendors[0]), b);
    }
  }

  /** Two equal entries make a value occur twice. */
  lemma TwiceCounted(s: seq<string>, i: int, j: int)
    requires 0 <= i < j < |s| && s[i] == s[j]
    ensures multiset(s)[s[i]] >= 2
  {
    assert s == s[..j] + s[j..];
    assert s[i] in s[..j];
    assert s[j] in s[j..];
  }

  /** A sorted sequence stays sorted behind an element below all of it. */
  lemma ConsSorted<T>(x: T, s: seq<T>, key: T -> string)
    requires SortedBy(s, key)
    requires forall j :: 0 <= j < |s| ==> Leq(key(x), key(s[j]))
    ensures SortedBy([x] + s, key)
  {
    var r := [x] + s;
    forall i, j | 0 <= i < j < |r|
      ensures Leq(key(r[i]), key(r[j]))
    {
      assert r[j] == s[j - 1];
      if i > 0 {
        assert r[i] == s[i - 1];
      }
    }
  }

  /** Filtering keeps a sorted sequence sorted. */
  lemma {:induction false} FilterKeepsOrder<T>(s: seq<T>, p: T -> bool, key: T -> string)
    requires SortedBy(s, key)
    ensures SortedBy(Filter(s, p), key)
  {
    if |s| > 0 {
      var tail := s[1..];
      assert SortedBy(tail, key) by {
        forall i, j | 0 <= i < j < |tail|
          ensures Leq(key(tail[i]), key(tail[j]))
        {
          assert tail[i] == s[i + 1] && tail[j] == s[j + 1];
        }
      }
      FilterKeepsOrder(tail, p, key);
      var rest := Filter(tail, p);
      if p(s[0]) {
        forall j | 0 <= j < |rest|
          ensures Leq(key(s[0]), key(rest[j]))
        {
          var i :| 0 <= i < |tail| && tail[i] == rest[j];
          assert s[i + 1] == rest[j];
        }
        ConsSorted(s[0], rest, key);
        assert Filter(s, p) == [s[0]] + rest;
      } else {
        assert Filter(s, p) == rest;
      }
    }
  }

  /** Some option of the list has `id` as its value. */
  ghost predicate Offers(choices: seq<Choice>, id: string)
  {
    exists i, k :: 0 <= i < |choices| && choices[i].OptGroup? && 0 <= k < |choices[i].options| &&
                   choices[i].options[k].value == id
  }

  /** An option listed in some group is offered. */
  lemma {:induction false} ListedIsOffered(choices: seq<Choice>, o: BoardOption)
    requires o in AllOptions(choices)
    ensures Offers(choices, o.value)
  {
    var head := if choices[0].OptGroup? then choices[0].options else [];
    assert AllOptions(choices) == head + AllOptions(choices[1..]);
    if o in head {
      var k :| 0 <= k < |head| && head[k] == o;
      assert choices[0].OptGroup? && choices[0].options[k].value == o.value;
    } else {
      ListedIsOffered(choices[1..], o);
      var i, k :| 0 <= i < |choices[1..]| && choices[1..][i].OptGroup? && 0 <= k < |choices[1..][i].options| &&
                  choices[1..][i].options[k].value == o.value;
      assert choices[i + 1] == choices[1..][i];
    }
  }

  /** Every board not selected is offered. */
  lemma OffersUnselected(allBoards: seq<Board>, selected: set<string>)
    ensures forall b :: b in allBoards && b.id !in selected ==> Offers(ChoiceList(allBoards, selected), b.id)
  {
    var r := ChoiceList(allBoards, selected);
    EveryOfferedBoardListed(allBoards, selected);
    forall b | b in allBoards && b.id !in selected
      ensures Offers(r, b.id)
    {
      var f := Filter(allBoards, IsOffered(selected));
      assert b in f;
      var i :| 0 <= i < |f| && f[i] == b;
      assert Map(f, OptionOf)[i] == OptionOf(b);
      assert OptionOf(b) in multiset(Map(f, OptionOf));
      assert OptionOf(b) in multiset(AllOptions(r));
      ListedIsOffered(r, OptionOf(b));
    }
  }

  /** No selected board is offered. */
  lemma NoSelectedBoardOffered(allBoards: seq<Board>, selected: set<string>)
    ensures forall id :: id in selected ==> !Offers(ChoiceList(allBoards, selected), id)
  {
    var sorted, vendorNames := ChoiceListParts(allBoards, selected);
    var r := ChoiceList(allBoards, selected);
    forall i, k | 0 <= i < |r| && r[i].OptGroup? && 0 <= k < |r[i].options|
      ensures r[i].options[k].value !in selected
    {
      var f := Filter(sorted, InGroup(selected, vendorNames[i - 1]));
      assert r[i].options == Map(f, OptionOf);
      assert f[k] in f;
    }
  }

  /** Option `o` stands for a board of `boards`, not selected, made by `vendor`. */
  ghost predicate OfferedUnder(boards: seq<Board>, selected: set<string>, vendor: string, o: BoardOption)
  {
    exists b :: b in boards && b.id !in selected && b.vendor == vendor && OptionOf(b) == o
  }

  /** Every option of a group stands for an offered board of `boards` whose
      vendor is the group's label. */
  lemma GroupsHoldTheirVendor(vendorNames: seq<string>, boards: seq<Board>, selected: set<string>)
    ensures var g := Groups(vendorNames, boards, selected);
      forall i, k :: 0 <= i < |g| && 0 <= k < |g[i].options| ==> OfferedUnder(boards, selected, g[i].vendor, g[i].options[k])
  {
    var g := Groups(vendorNames, boards, selected);
    forall i, k | 0 <= i < |g| && 0 <= k < |g[i].options|
      ensures OfferedUnder(boards, selected, g[i].vendor, g[i].options[k])
    {
      var f := Filter(boards, InGroup(selected, vendorNames[i]));
      var b := f[k];
      assert b in f;
      assert OptionOf(b) == g[i].options[k];
    }
  }

  lemma OfferedUnderPermutation(s: seq<Board>, t: seq<Board>, selected: set<string>, vendor: string, o: BoardOption)
    requires multiset(s) == multiset(t)
    requires OfferedUnder(s, selected, vendor, o)
    ensures OfferedUnder(t, selected, vendor, o)
  {
    var b :| b in s && b.id !in selected && b.vendor == vendor && OptionOf(b) == o;
    assert b in multiset(s);
    assert b in t;
  }

  /** Every option of the list stands for an offered board of the table, and
      it sits in the group labelled with that board's vendor. */
  lemma OptionsUnderOwnVendor(allBoards: seq<Board>, selected: set<string>)
    ensures var r := ChoiceList(allBoards, selected);
      forall i, k :: 1 <= i < |r| && 0 <= k < |r[i].options| ==> OfferedUnder(allBoards, selected, r[i].vendor, r[i].options[k])
  {
    var sorted, vendorNames := ChoiceListParts(allBoards, selected);
    GroupsHoldTheirVendor(vendorNames, sorted, selected);
    OptionsBehindPlaceholder(Groups(vendorNames, sorted, selected), sorted, allBoards, selected);
  }

  /** Carries `OfferedUnder` from the groups over a permutation of the
      boards to the list with the placeholder in front. */
  lemma OptionsBehindPlaceholder(g: seq<Choice>, sorted: seq<Board>, allBoards: seq<Board>, selected: set<string>)
    requires multiset(sorted) == multiset(allBoards)
    requires forall i :: 0 <= i < |g| ==> g[i].OptGroup?
    requires forall i, k :: 0 <= i < |g| && 0 <= k < |g[i].options| ==> OfferedUnder(sorted, selected, g[i].vendor, g[i].options[k])
    ensures var r := [Placeholder] + g;
      forall i, k :: 1 <= i < |r| && 0 <= k < |r[i].options| ==> OfferedUnder(allBoards, selected, r[i].vendor, r[i].options[k])
  {
    var r := [Placeholder] + g;
    forall i, k | 1 <= i < |r| && 0 <= k < |r[i].options|
      ensures OfferedUnder(allBoards, selected, r[i].vendor, r[i].options[k])
    {
      assert r[i] == g[i - 1];
      OfferedUnderPermutation(sorted, allBoards, selected, r[i].vendor, r[i].options[k]);
    }
  }

  /** With every offered vendor among the (unique) group labels, the groups
      together hold each offered board as often as `boards` does. */
  lemma FlatIsOffered(vendorNames: seq<string>, boards: seq<Board>, selected: set<string>)
    requires Unique(vendorNames)
    requires forall v :: v in Vendors(boards, selected) ==> v in vendorNames
    ensures multiset(FlatBoards(vendorNames, boards, selected)) == multiset(Filter(boards, IsOffered(selected)))
  {
    forall b
      ensures multiset(FlatBoards(vendorNames, boards, selected))[b] == multiset(Filter(boards, IsOffered(selected)))[b]
    {
      FlatBoardsCount(vendorNames, boards, selected, b);
      FilterCount(boards, IsOffered(selected), b);
      if b.id !in selected && b in boards {
        var i :| 0 <= i < |boards| && boards[i] == b;
        assert b.vendor in Vendors(boards, selected);
      }
    }
  }

  lemma FilterPermutation<T>(s: seq<T>, t: seq<T>, p: T -> bool)
    requires multiset(s) == multiset(t)
    ensures multiset(Filter(s, p)) == multiset(Filter(t, p))
  {
    forall x
      ensures multiset(Filter(s, p))[x] == multiset(Filter(t, p))[x]
    {
      FilterCount(s, p, x);
      FilterCount(t, p, x);
    }
  }

  /** The options of the list are, counted with multiplicity, exactly the
      offered boards of the table. */
  lemma EveryOfferedBoardListed(allBoards: seq<Board>, selected: set<string>)
    ensures multiset(AllOptions(ChoiceList(allBoards, selected))) ==
            multiset(Map(Filter(allBoards, IsOffered(selected)), OptionOf))
  {
    var sorted, vendorNames := ChoiceListParts(allBoards, selected);
    var r := ChoiceList(allBoards, selected);
    assert r[1..] == Groups(vendorNames, sorted, selected);
    assert AllOptions(r) == AllOptions(Groups(vendorNames, sorted, selected));
    AllOptionsOfGroups(vendorNames, sorted, selected);
    forall v | v in Vendors(sorted, selected)
      ensures v in vendorNames
    {
      assert v in multiset(vendorNames);
    }
    FlatIsOffered(vendorNames, sorted, selected);
    FilterPermutation(sorted, allBoards, IsOffered(selected));
    MapPermutation(FlatBoards(vendorNames, sorted, selected), Filter(allBoards, IsOffered(selected)), OptionOf);
  }

  /** Board ids are keys of an object: no two boards share one. */
  ghost predicate DistinctIds(boards: seq<Board>)
  {
    forall i, j :: 0 <= i < j < |boards| ==> boards[i].id != boards[j].id
  }

  /** An option whose id no board carries is not among the options. */
  lemma OptionAbsent(boards: seq<Board>, selected: set<string>, o: BoardOption)
    requires forall i :: 0 <= i < |boards| ==> boards[i].id != o.value
    ensures multiset(Map(Filter(boards, IsOffered(selected)), OptionOf))[o] == 0
  {
    var f := Filter(boards, IsOffered(selected));
    var m := Map(f, OptionOf);
    assert forall c :: c in boards ==> c.id != o.value;
    assert forall k :: 0 <= k < |f| ==> f[k].id != o.value;
    assert o !in m;
  }

  /** `Filter` and `Map` on a non-empty sequence: the head's contribution
      followed by the tail's. */
  lemma OptionsCons(boards: seq<Board>, selected: set<string>)
    requires |boards| > 0
    ensures var head := if boards[0].id !in selected then [OptionOf(boards[0])] else [];
      Map(Filter(boards, IsOffered(selected)), OptionOf) ==
      head + Map(Filter(boards[1..], IsOffered(selected)), OptionOf)
  {
    var p := IsOffered(selected);
    var f := Filter(boards[1..], p);
    if boards[0].id !in selected {
      assert Filter(boards, p) == [boards[0]] + f;
      MapAppend([boards[0]], f, OptionOf);
    } else {
      assert Filter(boards, p) == f;
      assert [] + Map(f, OptionOf) == Map(f, OptionOf);
    }
  }

  lemma {:induction false} OptionCountOne(boards: seq<Board>, selected: set<string>, b: Board)
    requires DistinctIds(boards)
    requires b in boards && b.id !in selected
    ensures multiset(Map(Filter(boards, IsOffered(selected)), OptionOf))[OptionOf(b)] == 1
  {
    var tail := boards[1..];
    OptionsCons(boards, selected);
    var head := if boards[0].id !in selected then [OptionOf(boards[0])] else [];
    var rest := Map(Filter(tail, IsOffered(selected)), OptionOf);
    assert multiset(head + rest) == multiset(head) + multiset(rest);
    TailOfDistinct(boards);
    if boards[0] == b {
      OptionAbsent(tail, selected, OptionOf(b));
      assert multiset(head)[OptionOf(b)] == 1;
    } else {
      TailHoldsOther(boards, b);
      assert multiset(head)[OptionOf(b)] == 0;
      OptionCountOne(tail, selected, b);
    }
  }

  /** The tail of a table with distinct ids has distinct ids, none of them
      the head's. */
  lemma TailOfDistinct(boards: seq<Board>)
    requires DistinctIds(boards) && |boards| > 0
    ensures DistinctIds(boards[1..])
    ensures forall i :: 0 <= i < |boards[1..]| ==> boards[1..][i].id != boards[0].id
  {
    assert forall i :: 0 <= i < |boards[1..]| ==> boards[1..][i] == boards[i + 1];
  }

  /** A board of a table with distinct ids that is not its head is in the
      tail and has another id than the head. */
  lemma TailHoldsOther(boards: seq<Board>, b: Board)
    requires DistinctIds(boards) && b in boards && boards[0] != b
    ensures b in boards[1..] && boards[0].id != b.id
  {
    var j :| 0 <= j < |boards| && boards[j] == b;
    assert boards[1..][j - 1] == b;
  }

  /** With distinct board ids, every board not selected appears exactly once
      among the options. */
  lemma OfferedBoardAppearsOnce(allBoards: seq<Board>, selected: set<string>, b: Board)
    requires DistinctIds(allBoards)
    requires b in allBoards && b.id !in selected
    ensures multiset(AllOptions(ChoiceList(allBoards, selected)))[OptionOf(b)] == 1
  {
    EveryOfferedBoardListed(allBoards, selected);
    OptionCountOne(allBoards, selected, b);
  }

  /** The labels of the option groups. */
  ghost function GroupVendors(choices: seq<Choice>): set<string>
  {
    set i | 0 <= i < |choices| && choices[i].OptGroup? :: choices[i].vendor
  }

  /** The vendors that have at least one board not selected yet. */
  ghost function OfferedVendors(allBoards: seq<Board>, selected: set<string>): set<string>
  {
    set b | b in allBoards && b.id !in selected :: b.vendor
  }

  /** A sorted sequence without repetitions is strictly ascending. */
  lemma StrictlyAscending(names: seq<string>)
    requires SortedBy(names, VendorName) && Unique(names)
    ensures forall i, j :: 0 <= i < j < |names| ==> Lt(names[i], names[j])
  {
    forall i, j | 0 <= i < j < |names|
      ensures Lt(names[i], names[j])
    {
      assert Leq(VendorName(names[i]), VendorName(names[j]));
      if names[i] == names[j] {
        TwiceCounted(names, i, j);
      }
    }
  }

  /** The pieces `ChoiceList` is built from, and what is known of them. */
  lemma ChoiceListParts(allBoards: seq<Board>, selected: set<string>)
    returns (sorted: seq<Board>, vendorNames: seq<string>)
    ensures multiset(sorted) == multiset(allBoards)
    ensures SortedBy(sorted, BoardName)
    ensures multiset(vendorNames) == multiset(Vendors(sorted, selected))
    ensures SortedBy(vendorNames, VendorName) && Unique(vendorNames)
    ensures ChoiceList(allBoards, selected) == [Placeholder] + Groups(vendorNames, sorted, selected)
  {
    sorted := SortBy(allBoards, BoardName);
    vendorNames := SortBy(Vendors(sorted, selected), VendorName);
  }

  /** The groups come in strictly ascending vendor-name order, so no vendor
      has two groups. */
  lemma GroupsAscending(allBoards: seq<Board>, selected: set<string>)
    ensures var r := ChoiceList(allBoards, selected);
      forall i, j :: 1 <= i < j < |r| ==> Lt(r[i].vendor, r[j].vendor)
  {
    var sorted, vendorNames := ChoiceListParts(allBoards, selected);
    StrictlyAscending(vendorNames);
  }

  /** No group is empty. */
  lemma GroupsNonEmpty(allBoards: seq<Board>, selected: set<string>)
    ensures var r := ChoiceList(allBoards, selected);
      forall i :: 1 <= i < |r| ==> |r[i].options| > 0
  {
    var sorted, vendorNames := ChoiceListParts(allBoards, selected);
    forall v | v in vendorNames
      ensures v in Vendors(sorted, selected)
    {
      assert v in multiset(vendorNames);
    }
    forall i | 0 <= i < |vendorNames|
      ensures |GroupOptions(sorted, selected, vendorNames[i])| > 0
    {
      VendorGroupNonEmpty(sorted, selected, vendorNames[i]);
    }
  }

  /** A vendor with an offered board has a non-empty group. */
  lemma VendorGroupNonEmpty(boards: seq<Board>, selected: set<string>, v: string)
    requires v in Vendors(boards, selected)
    ensures |GroupOptions(boards, selected, v)| > 0
  {
    var k :| 0 <= k < |boards| && boards[k].id !in selected && boards[k].vendor == v;
    assert boards[k] in Filter(boards, InGroup(selected, v));
  }

  /** The group labels of a choice list are its vendor names. */
  lemma GroupLabels(vendorNames: seq<string>, boards: seq<Board>, selected: set<string>)
    ensures GroupVendors([Placeholder] + Groups(vendorNames, boards, selected)) == set v | v in vendorNames
  {
    var r := [Placeholder] + Groups(vendorNames, boards, selected);
    forall v | v in vendorNames
      ensures v in GroupVendors(r)
    {
      var i :| 0 <= i < |vendorNames| && vendorNames[i] == v;
      assert r[i + 1].OptGroup? && r[i + 1].vendor == v;
    }
  }

  lemma SameElements(a: seq<string>, b: seq<string>)
    requires multiset(a) == multiset(b)
    ensures (set v | v in a) == set v | v in b
  {
    forall v
      ensures v in a <==> v in b
    {
      assert v in a <==> v in multiset(a);
      assert v in b <==> v in multiset(b);
    }
  }

  lemma VendorsAreOffered(boards: seq<Board>, selected: set<string>)
    ensures (set v | v in Vendors(boards, selected)) == OfferedVendors(boards, selected)
  {
    forall v | v in Vendors(boards, selected)
      ensures v in OfferedVendors(boards, selected)
    {
      var k :| 0 <= k < |boards| && boards[k].id !in selected && boards[k].vendor == v;
      assert boards[k] in boards;
    }
  }

  lemma OfferedVendorsPermutation(s: seq<Board>, t: seq<Board>, selected: set<string>)
    requires multiset(s) == multiset(t)
    ensures OfferedVendors(s, selected) == OfferedVendors(t, selected)
  {
    forall b
      ensures b in s <==> b in t
    {
      assert b in s <==> b in multiset(s);
      assert b in t <==> b in multiset(t);
    }
  }

  /** There is a group exactly for each vendor with a board not selected. */
  lemma GroupPerOfferedVendor(allBoards: seq<Board>, selected: set<string>)
    ensures GroupVendors(ChoiceList(allBoards, selected)) == OfferedVendors(allBoards, selected)
  {
    var sorted, vendorNames := ChoiceListParts(allBoards, selected);
    GroupLabels(vendorNames, sorted, selected);
    SameElements(vendorNames, Vendors(sorted, selected));
    VendorsAreOffered(sorted, selected);
    OfferedVendorsPermutation(sorted, allBoards, selected);
  }

  /** Inside each group the option names never decrease. */
  lemma NamesSortedWithinGroups(allBoards: seq<Board>, selected: set<string>)
    ensures var r := ChoiceList(allBoards, selected);
      forall i, k, l :: 1 <= i < |r| && 0 <= k < l < |r[i].options| ==>
        Leq(r[i].options[k].text, r[i].options[l].text)
  {
    var sorted, vendorNames := ChoiceListParts(allBoards, selected);
    forall j | 0 <= j < |vendorNames|
      ensures var g := GroupOptions(sorted, selected, vendorNames[j]);
        forall k, l :: 0 <= k < l < |g| ==> Leq(g[k].text, g[l].text)
    {
      GroupNamesSorted(sorted, selected, vendorNames[j]);
    }
  }

  /** The options of a group drawn from name-sorted boards are name-sorted. */
  lemma GroupNamesSorted(boards: seq<Board>, selected: set<string>, v: string)
    requires SortedBy(boards, BoardName)
    ensures var g := GroupOptions(boards, selected, v);
      forall k, l :: 0 <= k < l < |g| ==> Leq(g[k].text, g[l].text)
  {
    var f := Filter(boards, InGroup(selected, v));
    FilterKeepsOrder(boards, InGroup(selected, v), BoardName);
    forall k, l | 0 <= k < l < |f|
      ensures Leq(OptionOf(f[k]).text, OptionOf(f[l]).text)
    {
      assert Leq(BoardName(f[k]), BoardName(f[l]));
    }
  }

  /** What the picker keeps between events. */
  datatype Picker = Picker(allBoards: seq<Board>, selected: set<string>, choices: seq<Choice>)

  /** The constructor (through `setBoards`): the table is kept, nothing is
      selected, and the choice list is built from the table, so every board
      is offered. */
  function NewPicker(boards: seq<Board>): (r: Picker)
    ensures r.allBoards == boards && r.selected == {}
    ensures r.choices == ChoiceList(boards, {})
    ensures |r.choices| >= 1 && r.choices[0] == Placeholder
    ensures forall b :: b in boards ==> Offers(r.choices, b.id)
  {
    OffersUnselected(boards, {});
    Picker(boards, {}, ChoiceList(boards, {}))
  }

  /** The `onchange` handler: the chosen id joins the selected set and the
      choice list is rebuilt from the whole table, so the chosen board is
      no longer offered and every other unselected board still is. */
  function OnChange(p: Picker, value: string): (r: Picker)
    ensures r.selected == p.selected + {value}
    ensures r.allBoards == p.allBoards
    ensures r.choices == ChoiceList(p.allBoards, r.selected)
    ensures !Offers(r.choices, value)
    ensures forall b :: b in p.allBoards && b.id !in r.selected ==> Offers(r.choices, b.id)
  {
    var selected := p.selected + {value};
    var choices := ChoiceList(p.allBoards, selected);
    NoSelectedBoardOffered(p.allBoards, selected);
    OffersUnselected(p.allBoards, selected);
    Picker(p.allBoards, selected, choices)
  }

  /** `handleRemove`: the id leaves the selected set. The choice list is not
      rebuilt, so the board is offered again only after the next change. */
  function HandleRemove(p: Picker, id: string): (r: Picker)
    ensures r.selected == p.selected - {id}
    ensures r.allBoards == p.allBoards && r.choices == p.choices
  {
    p.(selected := p.selected - {id})
  }

  /** Choosing a board and removing it again restores the selected set, but
      the list still does not offer that board. */
  lemma ChooseThenRemove(p: Picker, value: string)
    requires value !in p.selected
    ensures var r := HandleRemove(OnChange(p, value), value);
      && r.selected == p.selected
      && !Offers(r.choices, value)
  {
  }
}
