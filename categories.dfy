/**
 * The local category store: a persisted dictionary from task key to one of six categories, which
 * the ledger knows nothing about, and the static table describing each category.
 */
module Categories {
  import opened Options
  import opened TaskKeys
  import opened LocalStorage

  /** `TASK_CATEGORIES`, a closed enumeration. */
  datatype Category = Fitness | Learning | Health | Work | Personal | Social

  datatype CategoryConfig = CategoryConfig(id: Category, displayLabel: string, color: string, bgColor: string, icon: string)

  /** `CATEGORY_CONFIGS[c]` (`label` is a reserved word in Dafny, hence `displayLabel`). */
  function ConfigOf(c: Category): (r: CategoryConfig)
    ensures r.id == c
  {
    match c
    case Fitness => CategoryConfig(Fitness, "Fitness", "text-orange-700", "bg-orange-100", "")
    case Learning => CategoryConfig(Learning, "Learning", "text-blue-700", "bg-blue-100", "")
    case Health => CategoryConfig(Health, "Health", "text-green-700", "bg-green-100", "")
    case Work => CategoryConfig(Work, "Work", "text-purple-700", "bg-purple-100", "")
    case Personal => CategoryConfig(Personal, "Personal", "text-pink-700", "bg-pink-100", "")
    case Social => CategoryConfig(Social, "Social", "text-yellow-700", "bg-yellow-100", "")
  }

  /** `ALL_CATEGORIES = Object.values(CATEGORY_CONFIGS)`, in declaration order. */
  const AllCategories: seq<CategoryConfig> :=
    [ConfigOf(Fitness), ConfigOf(Learning), ConfigOf(Health), ConfigOf(Work), ConfigOf(Personal), ConfigOf(Social)]

  /** `ALL_CATEGORIES` lists exactly one configuration per category. */
  lemma AllCategoriesOnePerValue(c: Category)
    ensures |AllCategories| == 6
    ensures exists i :: 0 <= i < |AllCategories| && AllCategories[i] == ConfigOf(c)
    ensures forall i, j :: 0 <= i < j < |AllCategories| ==> AllCategories[i].id != AllCategories[j].id
  {
    var i := match c
      case Fitness => 0 case Learning => 1 case Health => 2
      case Work => 3 case Personal => 4 case Social => 5;
    assert AllCategories[i] == ConfigOf(c);
  }

  /** `getCategoryConfig(category)`: nothing for no category, otherwise that category's entry. */
  function GetCategoryConfig(category: Option<Category>): (r: Option<CategoryConfig>)
    ensures r.None? <==> category.None?
    ensures r.Some? ==> r.value.id == category.value && r.value in AllCategories
  {
    match category
    case None => None
    case Some(c) =>
      AllCategoriesOnePerValue(c);
      Some(ConfigOf(c))
  }

  /** `TaskCategoryMapping`: task key to category. */
  type Mappings = map<string, Category>

  /** The category a mapping files under `taskId.toString()`, if any. */
  function CategoryOf(m: Mappings, ref: TaskRef): (r: Option<Category>)
    ensures r.Some? <==> KeyOf(ref) in m
    ensures r.Some? ==> r.value == m[KeyOf(ref)]
  {
    if KeyOf(ref) in m then Some(m[KeyOf(ref)]) else None
  }

  /** The `localStorage` entry `'keepup-task-categories'`. */
  class CategoryStore {
    var item: Item<Mappings>

    constructor (stored: Item<Mappings>)
      ensures item == stored
    {
      item := stored;
    }

    /**
     * `getCategoryMappings()`: the stored dictionary, or the empty one when nothing is stored or
     * the stored text does not parse.
     */
    function Mappings(): (m: Mappings)
      reads this
      ensures item.Parsed? ==> m == item.value
      ensures !item.Parsed? ==> m == map[]
    {
      Load(item, map[])
    }

    /** `getTaskCategory(taskId)`: the category filed under `taskId.toString()`, or null. */
    function Get(ref: TaskRef): (r: Option<Category>)
      reads this
      ensures r.Some? <==> KeyOf(ref) in Mappings()
      ensures r.Some? ==> r.value == Mappings()[KeyOf(ref)]
    {
      CategoryOf(Mappings(), ref)
    }

    /**
     * `setTaskCategory(taskId, category)`: load, assign the one key, save. A failed save
     * (`writable` false) is swallowed and leaves the entry as it was.
     */
    method Set(ref: TaskRef, category: Category, writable: bool)
      modifies this
      ensures item == Save(old(item), old(Mappings())[KeyOf(ref) := category], writable)
      ensures writable ==> Get(ref) == Some(category)
      ensures writable ==> forall other :: KeyOf(other) != KeyOf(ref) ==> Get(other) == old(Get(other))
      ensures !writable ==> Mappings() == old(Mappings())
    {
      var mappings := Mappings();
      mappings := mappings[KeyOf(ref) := category];
      item := Save(item, mappings, writable);
    }

    /**
     * `removeTaskCategory(taskId)`: load, delete the one key, save. Removing an absent key leaves
     * the mapping as it was; a failed save is swallowed.
     */
    method Remove(ref: TaskRef, writable: bool)
      modifies this
      ensures item == Save(old(item), old(Mappings()) - {KeyOf(ref)}, writable)
      ensures writable ==> Get(ref) == None
      ensures writable ==> forall other :: KeyOf(other) != KeyOf(ref) ==> Get(other) == old(Get(other))
      ensures KeyOf(ref) !in old(Mappings()) ==> Mappings() == old(Mappings())
    {
      var mappings := Mappings();
      mappings := mappings - {KeyOf(ref)};
      item := Save(item, mappings, writable);
    }
  }

  /** Writes are last-write-wins: of two writes to one task, the later one is read back. */
  method LastWriteWins(stored: Item<Mappings>, id: int, first: Category, second: Category) returns (r: Option<Category>)
    ensures r == Some(second)
  {
    var store := new CategoryStore(stored);
    store.Set(Big(id), first, true);
    store.Set(Big(id), second, true);
    r := store.Get(Big(id));
  }

  /** Tagging one task never changes the category of a task with another id. */
  method SetLeavesOtherIds(stored: Item<Mappings>, id: int, other: int, category: Category) returns (before: Option<Category>, after: Option<Category>)
    requires id != other
    ensures before == after
    ensures stored.Parsed? && DecimalString(other) in stored.value ==> after == Some(stored.value[DecimalString(other)])
  {
    var store := new CategoryStore(stored);
    before := store.Get(Big(other));
    DistinctIdsDistinctKeys(id, other);
    store.Set(Big(id), category, true);
    after := store.Get(Big(other));
  }

  /** A corrupt store reads as empty, and the next write starts a fresh dictionary from it. */
  method CorruptStoreIsEmpty(id: int, category: Category) returns (before: Option<Category>, m: Mappings)
    ensures before == None
    ensures m == map[DecimalString(id) := category]
  {
    var store := new CategoryStore(Unparseable);
    before := store.Get(Big(id));
    store.Set(Big(id), category, true);
    m := store.Mappings();
  }
}
