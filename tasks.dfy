/**
 * The Tasks page: decodes the ledger's task list, derives the active, filtered and completed-today
 * views, guards the write handlers with an in-flight lock, and tags a newly added task with its
 * category in the local store.
 */
module Tasks {
  import opened Options
  import opened Seqs
  import opened TaskKeys
  import opened Categories
  import opened JsString
  import opened Transactions

  /** `ChainTask`. */
  datatype ChainTask = ChainTask(id: int, name: string, active: bool, createdAt: int)

  /** The values a returned task carries, by field name or by tuple position; each may be missing. */
  datatype TaskFields = TaskFields(id: Option<int>, name: Option<string>, active: Option<bool>, createdAt: Option<int>)

  datatype RawTask = RawTask(named: TaskFields, positional: TaskFields)

  /** `named ?? positional ?? default`. */
  function Coalesce<T>(named: Option<T>, positional: Option<T>, default: T): (v: T)
    ensures named.Some? ==> v == named.value
    ensures named.None? && positional.Some? ==> v == positional.value
    ensures named.None? && positional.None? ==> v == default
  {
    named.GetOr(positional.GetOr(default))
  }

  /** One `chainTasks` entry: each field from its name, else its position, else 0, `''` or false. */
  function DecodeTask(raw: RawTask): (t: ChainTask)
    ensures t.id == Coalesce(raw.named.id, raw.positional.id, 0)
    ensures t.name == Coalesce(raw.named.name, raw.positional.name, "")
    ensures t.active == Coalesce(raw.named.active, raw.positional.active, false)
    ensures t.createdAt == Coalesce(raw.named.createdAt, raw.positional.createdAt, 0)
  {
    ChainTask(Coalesce(raw.named.id, raw.positional.id, 0),
              Coalesce(raw.named.name, raw.positional.name, ""),
              Coalesce(raw.named.active, raw.positional.active, false),
              Coalesce(raw.named.createdAt, raw.positional.createdAt, 0))
  }

  /** `chainTasks`: no data gives no tasks; otherwise one decoded task per returned entry, in order. */
  function ChainTasks(data: Option<seq<RawTask>>): (r: seq<ChainTask>)
    ensures data.None? ==> r == []
    ensures data.Some? ==> |r| == |data.value| && forall i :: 0 <= i < |r| ==> r[i] == DecodeTask(data.value[i])
  {
    match data
    case None => []
    case Some(raws) => seq(|raws|, i requires 0 <= i < |raws| => DecodeTask(raws[i]))
  }

  function IsActive(t: ChainTask): bool {
    t.active
  }

  /** `actionableTasks`: exactly the active tasks. */
  function ActionableTasks(tasks: seq<ChainTask>): (r: seq<ChainTask>)
    ensures forall t :: t in r ==> t in tasks && t.active
    ensures forall t :: t in tasks && t.active ==> t in r
  {
    Filter(tasks, IsActive)
  }

  /** The active tasks keep ledger order: the view of a concatenation is the concatenation of views. */
  lemma ActionableKeepsLedgerOrder(a: seq<ChainTask>, b: seq<ChainTask>)
    ensures ActionableTasks(a + b) == ActionableTasks(a) + ActionableTasks(b)
    ensures ActionableTasks([]) == []
  {
    FilterConcat(a, b, IsActive);
  }

  /** `filterCategory`: `'all'` or one category. */
  datatype TaskFilter = ShowAll | ShowOnly(category: Category)

  function HasCategory(m: Mappings, c: Category): ChainTask -> bool {
    (t: ChainTask) => CategoryOf(m, Big(t.id)) == Some(c)
  }

  /**
   * `filteredTasks`, with `m` the stored category mappings: `'all'` shows every ledger task,
   * inactive ones included; a category shows exactly the tasks stored with that category, whether
   * active or not.
   */
  function FilteredTasks(tasks: seq<ChainTask>, filter: TaskFilter, m: Mappings): (r: seq<ChainTask>)
    ensures filter.ShowAll? ==> r == tasks
    ensures filter.ShowOnly? ==> forall t :: t in r ==> t in tasks && CategoryOf(m, Big(t.id)) == Some(filter.category)
    ensures filter.ShowOnly? ==> forall t :: t in tasks && CategoryOf(m, Big(t.id)) == Some(filter.category) ==> t in r
  {
    match filter
    case ShowAll => tasks
    case ShowOnly(c) => Filter(tasks, HasCategory(m, c))
  }

  /** A category view keeps ledger order as well. */
  lemma FilteredKeepsLedgerOrder(a: seq<ChainTask>, b: seq<ChainTask>, filter: TaskFilter, m: Mappings)
    ensures FilteredTasks(a + b, filter, m) == FilteredTasks(a, filter, m) + FilteredTasks(b, filter, m)
  {
    if filter.ShowOnly? {
      FilterConcat(a, b, HasCategory(m, filter.category));
    }
  }

  /** One `getTaskStatus(address, task.id)` read. */
  datatype StatusRead = StatusRead(contract: Address, user: Address, taskId: int)

  /** `statusConfigs`: no reads without an address or a contract, else one per active task, in order. */
  function StatusConfigs(address: Option<Address>, contract: Option<Address>, active: seq<ChainTask>): (r: seq<StatusRead>)
    ensures address.None? || contract.None? ==> r == []
    ensures address.Some? && contract.Some? ==>
      (|r| == |active| && forall i :: 0 <= i < |r| ==> r[i] == StatusRead(contract.value, address.value, active[i].id))
  {
    if address.None? || contract.None? then []
    else seq(|active|, i requires 0 <= i < |active| => StatusRead(contract.value, address.value, active[i].id))
  }

  /**
   * The ids counted as completed today: a status result at index `i` that is present and equal to
   * `currentDay` marks the `i`-th active task; results beyond the task list mark nothing.
   */
  ghost function CompletedSpec(results: seq<Option<int>>, active: seq<ChainTask>, currentDay: int): set<int> {
    set i | 0 <= i < |results| && i < |active| && results[i] == Some(currentDay) :: active[i].id
  }

  /** `completedTaskIds`: the `forEach` over the status results, adding into a `Set`. */
  method CompletedTaskIds(statuses: Option<seq<Option<int>>>, active: seq<ChainTask>, currentDay: int)
    returns (completed: set<int>)
    ensures statuses.None? ==> completed == {}
    ensures statuses.Some? ==> completed == CompletedSpec(statuses.value, active, currentDay)
  {
    completed := {};
    if statuses.None? {
      return;
    }
    var results := statuses.value;
    var index := 0;
    while index < |results|
      invariant 0 <= index <= |results|
      invariant completed == CompletedSpec(results[..index], active, currentDay)
    {
      var result := results[index];
      if result.Some? && index < |active| && result.value == currentDay {
        completed := completed + {active[index].id};
      }
      assert results[..index + 1][..index] == results[..index];
      index := index + 1;
    }
    assert results[..index] == results;
  }

  /** A result equal to today at a task's index marks that task completed. */
  lemma CompletedAtItsIndex(results: seq<Option<int>>, active: seq<ChainTask>, currentDay: int, i: nat)
    requires i < |results| && i < |active| && results[i] == Some(currentDay)
    ensures active[i].id in CompletedSpec(results, active, currentDay)
  {
  }

  /**
   * With distinct task ids, a task whose result is missing or any other day (yesterday included)
   * is not completed: the test is exact day equality.
   */
  lemma OtherDayNeverCounts(results: seq<Option<int>>, active: seq<ChainTask>, currentDay: int, i: nat)
    requires forall j, k :: 0 <= j < k < |active| ==> active[j].id != active[k].id
    requires i < |active|
    requires i >= |results| || results[i] != Some(currentDay)
    ensures active[i].id !in CompletedSpec(results, active, currentDay)
  {
    forall j | 0 <= j < |results| && j < |active| && results[j] == Some(currentDay)
      ensures active[j].id != active[i].id
    {
      assert j != i;
    }
  }

  /** Completed ids are ids of tasks in the active view, and no results means nothing completed. */
  lemma CompletedAreActive(tasks: seq<ChainTask>, results: seq<Option<int>>, currentDay: int, id: int)
    requires id in CompletedSpec(results, ActionableTasks(tasks), currentDay)
    ensures exists t :: t in tasks && t.active && t.id == id
    ensures results != []
  {
    var active := ActionableTasks(tasks);
    var i :| 0 <= i < |results| && i < |active| && results[i] == Some(currentDay) && active[i].id == id;
    assert active[i] in active;
  }

  /** `useUserKeepUpContract()` and `usePublicClient()` as the page sees them. */
  datatype Session = Session(address: Option<Address>, isConnected: bool, contractAddress: Option<Address>,
                             hasDeployment: bool)

  const ConnectWalletToast := Toast("Connect your wallet", "You need to connect a wallet before managing tasks.", false)
  const NoContractToast := Toast("No KeepUp contract found", "Deploy a contract from the Admin page to start managing tasks.", false)

  /** `ensureReady()`: a connected wallet and a deployed contract, or the notice saying which is missing. */
  function EnsureReady(s: Session): (r: Option<Toast>)
    ensures r.None? <==> s.isConnected && s.hasDeployment && s.contractAddress.Some?
    ensures !s.isConnected ==> r == Some(ConnectWalletToast)
    ensures s.isConnected && r.Some? ==> r == Some(NoContractToast)
  {
    if !s.isConnected then Some(ConnectWalletToast)
    else if !s.hasDeployment || s.contractAddress.None? then Some(NoContractToast)
    else None
  }

  /** `disableComplete`. */
  predicate DisableComplete(task: ChainTask, completed: set<int>, pendingTaskId: Option<int>): (disabled: bool)
    ensures !disabled <==> task.active && task.id !in completed && pendingTaskId != Some(task.id)
  {
    !task.active || task.id in completed || pendingTaskId == Some(task.id)
  }

  /** The remove button's `disabled`. */
  predicate DisableRemove(task: ChainTask, pendingTaskId: Option<int>, hasDeployment: bool): (disabled: bool)
    ensures !disabled <==> task.active && pendingTaskId != Some(task.id) && hasDeployment
  {
    !task.active || pendingTaskId == Some(task.id) || !hasDeployment
  }

  /** `disableAdd`. */
  predicate DisableAdd(newTask: string, s: Session, isAdding: bool): (disabled: bool)
    ensures !disabled <==> !AllWhitespace(newTask) && s.isConnected && s.hasDeployment && !isAdding
  {
    Trim(newTask) == [] || !s.isConnected || !s.hasDeployment || isAdding
  }

  /** A task whose status read is today cannot be completed again from the page. */
  lemma CompletedTodayDisablesComplete(results: seq<Option<int>>, active: seq<ChainTask>, currentDay: int, i: nat,
                                       pendingTaskId: Option<int>)
    requires i < |results| && i < |active| && results[i] == Some(currentDay)
    ensures DisableComplete(active[i], CompletedSpec(results, active, currentDay), pendingTaskId)
  {
    CompletedAtItsIndex(results, active, currentDay, i);
  }

  /** An enabled Add button means a non-blank name, a wallet, a deployment and no add in progress. */
  lemma EnabledAddMeansReady(newTask: string, s: Session, isAdding: bool)
    requires !DisableAdd(newTask, s, isAdding)
    ensures !AllWhitespace(newTask) && s.isConnected && s.hasDeployment && !isAdding
  {
  }

  datatype Action = CompleteAction | RemoveAction

  datatype LedgerWrite = AddTask(contract: Address, name: string)
                       | CompleteTask(contract: Address, taskId: int)
                       | RemoveTask(contract: Address, taskId: int)

  /** What the add handler's closure captured: the trimmed name and the selected category. */
  datatype AddRequest = AddRequest(name: string, category: Option<Category>)

  /** `tasks.find(t => t.name === name)`, as an index: the first task with that exact name. */
  function FirstNamed(tasks: seq<ChainTask>, name: string): (i: nat)
    ensures i <= |tasks|
    ensures i < |tasks| ==> tasks[i].name == name
    ensures forall j :: 0 <= j < i ==> tasks[j].name != name
  {
    if tasks == [] then 0
    else if tasks[0].name == name then 0
    else 1 + FirstNamed(tasks[1..], name)
  }

  /**
   * The task the add handler tags: only when a category was selected and the receipt says
   * success, and then the first refreshed task whose name is the trimmed input, if any.
   */
  function TagTarget(request: AddRequest, submission: Submission, refreshed: Option<seq<RawTask>>): (r: Option<int>)
    ensures r.Some? ==> request.category.Some? && submission.Submitted? && submission.confirmation == Mined(Success)
    ensures r.Some? ==> refreshed.Some? && exists i :: 0 <= i < |ChainTasks(refreshed)| && ChainTasks(refreshed)[i].id == r.value
                                                       && ChainTasks(refreshed)[i].name == request.name
    ensures request.category.Some? && submission.Submitted? && submission.confirmation == Mined(Success) && refreshed.Some?
            && FirstNamed(ChainTasks(refreshed), request.name) < |ChainTasks(refreshed)|
            ==> r == Some(ChainTasks(refreshed)[FirstNamed(ChainTasks(refreshed), request.name)].id)
  {
    if request.category.Some? && submission.Submitted? && submission.confirmation == Mined(Success) && refreshed.Some? then
      var tasks := ChainTasks(refreshed);
      var i := FirstNamed(tasks, request.name);
      if i < |tasks| then Some(tasks[i].id) else None
    else None
  }

  /**
   * The tag goes to the first task with the entered name, even when an older task of the same name
   * precedes the new one in the ledger's list.
   */
  lemma TagLandsOnFirstNamesake(request: AddRequest, hash: Hash, refreshed: seq<RawTask>, older: nat, newer: nat)
    requires request.category.Some?
    requires older < newer < |refreshed|
    requires DecodeTask(refreshed[older]).name == request.name && DecodeTask(refreshed[newer]).name == request.name
    requires forall j :: 0 <= j < older ==> DecodeTask(refreshed[j]).name != request.name
    ensures TagTarget(request, Submitted(hash, Mined(Success)), Some(refreshed)) == Some(DecodeTask(refreshed[older]).id)
  {
    var tasks := ChainTasks(Some(refreshed));
    var i := FirstNamed(tasks, request.name);
    assert tasks[older].name == request.name;
    assert i >= older;
  }

  /** The page's own state: the input, and the flags and lock the handlers set. */
  class TaskPage {
    var newTask: string
    var selectedCategory: Option<Category>
    var filterCategory: TaskFilter
    var isAdding: bool
    var pendingTaskId: Option<int>
    var pendingAction: Option<Action>
    /** The notices shown so far. */
    var toasts: seq<Toast>

    constructor (newTask: string, selectedCategory: Option<Category>)
      ensures this.newTask == newTask && this.selectedCategory == selectedCategory
      ensures filterCategory == ShowAll && !isAdding && pendingTaskId == None && pendingAction == None
      ensures toasts == []
    {
      this.newTask, this.selectedCategory := newTask, selectedCategory;
      filterCategory, isAdding := ShowAll, false;
      pendingTaskId, pendingAction := None, None;
      toasts := [];
    }

    /**
     * `handleCompleteTask(taskId)` / `handleRemoveTask(taskId)` up to the write submission: when
     * `ensureReady()` fails it shows the notice and submits nothing; otherwise it sets
     * `pendingTaskId` and `pendingAction` and then hands the write to the wallet.
     */
    method BeginTaskAction(taskId: int, action: Action, s: Session) returns (write: Option<LedgerWrite>)
      modifies this
      ensures newTask == old(newTask) && selectedCategory == old(selectedCategory)
      ensures filterCategory == old(filterCategory) && isAdding == old(isAdding)
      ensures EnsureReady(s).Some? ==>
        write == None && pendingTaskId == old(pendingTaskId) && pendingAction == old(pendingAction)
        && toasts == old(toasts) + [EnsureReady(s).value]
      ensures EnsureReady(s).None? ==>
        pendingTaskId == Some(taskId) && pendingAction == Some(action) && toasts == old(toasts)
        && write == Some(if action == CompleteAction then CompleteTask(s.contractAddress.value, taskId)
                         else RemoveTask(s.contractAddress.value, taskId))
    {
      var notice := EnsureReady(s);
      if notice.Some? {
        toasts := toasts + [notice.value];
        return None;
      }
      pendingTaskId := Some(taskId);
      pendingAction := Some(action);
      write := Some(if action == CompleteAction then CompleteTask(s.contractAddress.value, taskId)
                    else RemoveTask(s.contractAddress.value, taskId));
    }

    /**
     * The rest of the handler once the write settles: the submitted notice, the wait, and the
     * refresh of the task list and statuses when the `try` ran to its end; the error notice when
     * it threw. The `finally` clears the lock on every path. Removing a task leaves its category
     * in the local store.
     */
    method FinishTaskAction(action: Action, submission: Submission) returns (refreshed: bool)
      modifies this
      ensures pendingTaskId == None && pendingAction == None
      ensures refreshed <==> Completed(submission)
      ensures toasts == old(toasts) + ActionToasts(action, submission)
      ensures newTask == old(newTask) && selectedCategory == old(selectedCategory)
      ensures filterCategory == old(filterCategory) && isAdding == old(isAdding)
    {
      toasts := toasts + ActionToasts(action, submission);
      refreshed := Completed(submission);
      pendingTaskId := None;
      pendingAction := None;
    }

    /**
     * `handleAddTask()` up to the write submission: a blank trimmed name does nothing at all; a
     * failed `ensureReady()` shows its notice; otherwise `isAdding` is set and the trimmed name is
     * submitted, the closure keeping the name and the selected category.
     */
    method BeginAdd(s: Session) returns (request: Option<AddRequest>, write: Option<LedgerWrite>)
      modifies this
      ensures newTask == old(newTask) && selectedCategory == old(selectedCategory)
      ensures filterCategory == old(filterCategory)
      ensures pendingTaskId == old(pendingTaskId) && pendingAction == old(pendingAction)
      ensures Trim(newTask) == [] ==> request == None && write == None && isAdding == old(isAdding) && toasts == old(toasts)
      ensures Trim(newTask) != [] && EnsureReady(s).Some? ==>
        request == None && write == None && isAdding == old(isAdding) && toasts == old(toasts) + [EnsureReady(s).value]
      ensures Trim(newTask) != [] && EnsureReady(s).None? ==>
        isAdding && toasts == old(toasts)
        && request == Some(AddRequest(Trim(newTask), selectedCategory))
        && write == Some(AddTask(s.contractAddress.value, Trim(newTask)))
    {
      var name := Trim(newTask);
      if name == [] {
        return None, None;
      }
      var notice := EnsureReady(s);
      if notice.Some? {
        toasts := toasts + [notice.value];
        return None, None;
      }
      isAdding := true;
      request := Some(AddRequest(name, selectedCategory));
      write := Some(AddTask(s.contractAddress.value, name));
    }

    /**
     * The rest of `handleAddTask()`. With a successful receipt and a selected category, the first
     * refreshed task carrying the trimmed name gets the category in the local store. When the
     * `try` runs to its end the input and the selected category are cleared and the tasks are
     * re-read; a throwing submission or wait leaves the input. `isAdding` is cleared on every path.
     */
    method FinishAdd(request: AddRequest, submission: Submission, refreshedTasks: Option<seq<RawTask>>,
                     store: CategoryStore, writable: bool) returns (refreshed: bool)
      modifies this, store
      ensures !isAdding
      ensures refreshed <==> Completed(submission)
      ensures toasts == old(toasts) + WriteToasts("Task submitted", "Add task failed", "Unable to add task.", submission)
      ensures Completed(submission) ==> newTask == [] && selectedCategory == None
      ensures !Completed(submission) ==> newTask == old(newTask) && selectedCategory == old(selectedCategory)
      ensures pendingTaskId == old(pendingTaskId) && pendingAction == old(pendingAction)
      ensures filterCategory == old(filterCategory)
      ensures TagTarget(request, submission, refreshedTasks).None? ==> store.item == old(store.item)
      ensures TagTarget(request, submission, refreshedTasks).Some? ==>
        store.item == LocalStorage.Save(old(store.item),
          old(store.Mappings())[KeyOf(Big(TagTarget(request, submission, refreshedTasks).value)) := request.category.value],
          writable)
    {
      toasts := toasts + WriteToasts("Task submitted", "Add task failed", "Unable to add task.", submission);
      var target := TagTarget(request, submission, refreshedTasks);
      if target.Some? {
        store.Set(Big(target.value), request.category.value, writable);
      }
      refreshed := Completed(submission);
      if refreshed {
        newTask := [];
        selectedCategory := None;
      }
      isAdding := false;
    }
  }

  /** The notices of the complete and remove handlers. */
  function ActionToasts(action: Action, submission: Submission): (r: seq<Toast>)
    ensures action == CompleteAction ==>
      r == WriteToasts("Completion submitted", "Complete task failed", "Unable to complete task.", submission)
    ensures action == RemoveAction ==>
      r == WriteToasts("Removal submitted", "Remove task failed", "Unable to remove task.", submission)
  {
    match action
    case CompleteAction => WriteToasts("Completion submitted", "Complete task failed", "Unable to complete task.", submission)
    case RemoveAction => WriteToasts("Removal submitted", "Remove task failed", "Unable to remove task.", submission)
  }

  /**
   * While a complete or remove call on a task is outstanding, both of that task's buttons are
   * disabled; after it settles, on any path, the lock no longer disables them.
   */
  method LockHeldUntilSettled(s: Session, task: ChainTask, action: Action, submission: Submission)
    returns (whileInFlight: bool, afterSettled: Option<int>)
    requires EnsureReady(s).None? && task.active && s.hasDeployment
    ensures whileInFlight
    ensures afterSettled == None && !DisableComplete(task, {}, afterSettled) && !DisableRemove(task, afterSettled, s.hasDeployment)
  {
    var page := new TaskPage([], None);
    var write := page.BeginTaskAction(task.id, action, s);
    whileInFlight := DisableComplete(task, {}, page.pendingTaskId) && DisableRemove(task, page.pendingTaskId, s.hasDeployment);
    var refreshed := page.FinishTaskAction(action, submission);
    afterSettled := page.pendingTaskId;
  }

  /**
   * The lock is a single slot: when actions on two tasks overlap, the first one to settle clears
   * the lock of the other, whose buttons are enabled again while its write is still in flight.
   */
  method OverlappingActionsShareOneLock(s: Session, first: ChainTask, second: ChainTask, submission: Submission)
    returns (writes: seq<LedgerWrite>, lock: Option<int>)
    requires EnsureReady(s).None? && first.id != second.id && second.active
    ensures |writes| == 2 && writes[1] == CompleteTask(s.contractAddress.value, second.id)
    ensures lock == None && !DisableComplete(second, {}, lock)
  {
    var page := new TaskPage([], None);
    var w1 := page.BeginTaskAction(first.id, CompleteAction, s);
    var w2 := page.BeginTaskAction(second.id, CompleteAction, s);
    var refreshed := page.FinishTaskAction(CompleteAction, submission);
    writes := [w1.value, w2.value];
    lock := page.pendingTaskId;
  }

  /** Without a connected wallet neither handler submits anything, and the user is told to connect. */
  method DisconnectedNeverSubmits(s: Session, taskId: int, action: Action) returns (write: Option<LedgerWrite>, shown: seq<Toast>)
    requires !s.isConnected
    ensures write == None && shown == [ConnectWalletToast]
  {
    var page := new TaskPage([], None);
    write := page.BeginTaskAction(taskId, action, s);
    shown := page.toasts;
  }

  /** Adding a task with a selected category, confirmed with success, tags the first task of that name. */
  method AddThenTag(s: Session, name: string, category: Category, hash: Hash, refreshed: seq<RawTask>, stored: LocalStorage.Item<Mappings>)
    returns (tag: Option<Category>, id: int)
    requires EnsureReady(s).None? && Trim(name) != []
    requires FirstNamed(ChainTasks(Some(refreshed)), Trim(name)) < |refreshed|
    ensures id == ChainTasks(Some(refreshed))[FirstNamed(ChainTasks(Some(refreshed)), Trim(name))].id
    ensures tag == Some(category)
  {
    var page := new TaskPage(name, Some(category));
    var store := new CategoryStore(stored);
    var request, write := page.BeginAdd(s);
    var done := page.FinishAdd(request.value, Submitted(hash, Mined(Success)), Some(refreshed), store, true);
    var tasks := ChainTasks(Some(refreshed));
    id := tasks[FirstNamed(tasks, Trim(name))].id;
    tag := store.Get(Big(id));
  }
}
