/** The store object whose actions change its fields. Every action takes exactly its step of the
    tenant state machine, so the theorems about runs are theorems about this object. */
module ScanStore {
  import opened StampedCopy
  import opened CloudMerge
  import T = TenantStore
  import L = Ledger

  class Store {
    const cloudBackend: bool
    const hasLoader: bool
    var businessId: string
    var userId: Option<string>
    var businessContextReady: bool
    var businessDataLoaded: bool
    var businessLoadGeneration: nat
    var products: seq<Product>
    var aliases: seq<Alias>
    var sessions: seq<Session>
    var currentSession: Option<Session>
    var scanFeed: seq<Scan>
    var finalCounts: seq<L.Count>
    var needsReviewQueue: seq<Review>
    var pendingSyncQueue: seq<Item>
    var loads: seq<T.PendingLoad>

    ghost function Rows(): T.Surfaces
      reads this
    {
      T.Surfaces(products, aliases, sessions, currentSession, scanFeed, finalCounts, needsReviewQueue)
    }

    ghost function Model(): T.State
      reads this
    {
      T.State(cloudBackend, hasLoader, businessId, userId, businessContextReady, businessDataLoaded,
              businessLoadGeneration, Rows(), pendingSyncQueue, loads)
    }

    constructor (cloudBackend: bool, hasLoader: bool, products: seq<Product>, aliases: seq<Alias>, session: Session)
      ensures Model() == T.Initial(cloudBackend, hasLoader,
                                   T.Surfaces(products, aliases, [], Some(session), [], [], []))
    {
      this.cloudBackend, this.hasLoader := cloudBackend, hasLoader;
      businessId, userId := T.DEMO_BUSINESS_ID, None;
      businessContextReady, businessDataLoaded := !cloudBackend, !cloudBackend;
      businessLoadGeneration := 0;
      this.products, this.aliases, sessions, currentSession := products, aliases, [], Some(session);
      scanFeed, finalCounts, needsReviewQueue, pendingSyncQueue, loads := [], [], [], [], [];
    }

    method ClearTenantRows()
      modifies this`products, this`aliases, this`sessions, this`currentSession,
               this`scanFeed, this`finalCounts, this`needsReviewQueue
      ensures Rows() == T.CLEARED
    {
      products, aliases, sessions, currentSession := [], [], [], None;
      scanFeed, finalCounts, needsReviewQueue := [], [], [];
    }

    method StartLoad(kind: T.LoadKind)
      modifies this`loads
      ensures Model() == T.Issue(old(Model()), kind)
    {
      loads := loads + [T.PendingLoad(kind, businessLoadGeneration, businessId, userId)];
    }

    /** resync: the sync work rebuilt for rows adopted from the placeholder session. */
    method SetBusinessContext(b: string, u: Option<string>, resync: seq<Item>)
      modifies this
      ensures Model() == T.Next(old(Model()), T.SetContext(b, u, resync))
    {
      SwitchTenant(b, u, resync);
      businessLoadGeneration := businessLoadGeneration + 1;
      var needsLoad := cloudBackend && hasLoader;
      businessContextReady, businessDataLoaded := true, !needsLoad;
      if needsLoad {
        StartLoad(T.ContextLoad);
      }
    }

    /** The three cases of a context change: the same tenant again, a first sign-in with placeholder
        rows to save, a real switch. */
    method SwitchTenant(b: string, u: Option<string>, resync: seq<Item>)
      modifies this`products, this`aliases, this`sessions, this`currentSession,
               this`scanFeed, this`finalCounts, this`needsReviewQueue,
               this`pendingSyncQueue, this`businessId, this`userId
      ensures businessId == b && userId == u
      ensures Rows() == T.SwitchedRows(old(Model()), b, u)
      ensures pendingSyncQueue == T.SwitchedQueue(old(Model()), b, u, resync)
    {
      var sameTenant := businessId == b && userId == u;
      var hasPlaceholderActivity := HasPlaceholderActivity();
      var isBootstrapResolution :=
        cloudBackend && !sameTenant && businessId == T.DEMO_BUSINESS_ID && userId.None? && hasPlaceholderActivity;
      assert isBootstrapResolution == T.Bootstrap(Model(), b, u);
      if isBootstrapResolution {
        RescopeRows(b);
        pendingSyncQueue := T.RescopeQueue(pendingSyncQueue, b) + resync;
      } else if !sameTenant {
        ClearTenantRows();
      }
      businessId, userId := b, u;
    }

    /** Re-points every placeholder row at the business. */
    method RescopeRows(b: string)
      modifies this`products, this`aliases, this`sessions, this`currentSession,
               this`scanFeed, this`finalCounts, this`needsReviewQueue
      ensures Rows() == T.Rescope(old(Rows()), b)
    {
      products := T.RescopeProducts(products, b);
      aliases := T.RescopeAliases(aliases, b);
      sessions := T.RescopeSessions(sessions, b);
      currentSession := if currentSession.Some? then Some(T.RescopeSession(currentSession.value, b)) else None;
      scanFeed := T.RescopeFeed(scanFeed, b);
      finalCounts := T.RescopeCounts(finalCounts, b);
      needsReviewQueue := T.RescopeReviews(needsReviewQueue, b);
    }

    method HasPlaceholderActivity() returns (r: bool)
      ensures r == T.PlaceholderActivity(Model())
    {
      r := (exists i :: 0 <= i < |scanFeed| && scanFeed[i].businessId == T.DEMO_BUSINESS_ID)
        || (exists i :: 0 <= i < |pendingSyncQueue| && pendingSyncQueue[i].businessId == T.DEMO_BUSINESS_ID)
        || (exists i :: 0 <= i < |needsReviewQueue| && needsReviewQueue[i].businessId == T.DEMO_BUSINESS_ID);
    }

    method ResetForSignOut()
      modifies this
      ensures Model() == T.Next(old(Model()), T.SignOut)
    {
      ClearTenantRows();
      businessId, userId := T.DEMO_BUSINESS_ID, None;
      businessContextReady, businessDataLoaded := !cloudBackend, !cloudBackend;
      pendingSyncQueue := [];
    }

    /** `refreshFromCloud` up to its await. */
    method RefreshFromCloud()
      modifies this
      ensures Model() == T.Next(old(Model()), T.RefreshFromCloud)
    {
      if !cloudBackend || !hasLoader {
        return;
      }
      if !businessContextReady || userId.None? || userId.value == "" || businessId == "" {
        return;
      }
      businessLoadGeneration := businessLoadGeneration + 1;
      StartLoad(T.RefreshLoad);
    }

    method TakeLoad(i: nat) returns (load: T.PendingLoad)
      requires i < |loads|
      modifies this`loads
      ensures load == old(loads[i]) && Model() == T.Without(old(Model()), i)
    {
      load := loads[i];
      loads := loads[..i] + loads[i + 1..];
    }

    /** The guard every finished load passes before it may touch a row. */
    method IsCurrent(load: T.PendingLoad) returns (r: bool)
      ensures r == T.Current(Model(), load)
    {
      r := !(load.generation != businessLoadGeneration || businessId != load.businessId || userId != load.userId);
    }

    method Reload(data: T.Data)
      modifies this`products, this`aliases, this`needsReviewQueue
      ensures Rows() == T.Reloaded(old(Rows()), pendingSyncQueue, businessId, data)
    {
      var ps, als := MergeReloadedProductsAndAliases(businessId, products, data.products, aliases, data.aliases,
                                                     pendingSyncQueue);
      products, aliases := ps, als;
      if data.reviews.Some? {
        needsReviewQueue := MergeReloadedReviews(businessId, needsReviewQueue, data.reviews.value, pendingSyncQueue);
      }
    }

    /** The load of `setBusinessContext` has answered. */
    method ContextLoaded(i: nat, data: T.Data)
      requires T.Enabled(Model(), T.LoadSucceeds(i, data)) && loads[i].kind == T.ContextLoad
      modifies this
      ensures Model() == T.Next(old(Model()), T.LoadSucceeds(i, data))
    {
      var load := TakeLoad(i);
      var current := IsCurrent(load);
      if !current {
        return;
      }
      AcceptContextLoad(data);
    }

    method AcceptContextLoad(data: T.Data)
      modifies this`products, this`aliases, this`needsReviewQueue, this`currentSession, this`scanFeed, this`finalCounts,
               this`businessDataLoaded
      ensures Model() == T.Accept(old(Model()), T.ContextLoad, data)
    {
      ContextMergeRows(data);
      businessDataLoaded := true;
    }

    method ContextMergeRows(data: T.Data)
      modifies this`products, this`aliases, this`needsReviewQueue, this`currentSession, this`scanFeed, this`finalCounts
      ensures Rows() == T.ContextMerge(old(Rows()), pendingSyncQueue, businessId, data)
    {
      var restored := Restored(data.sessions);
      var unsynced := T.UnsyncedSession(currentSession);
      Reload(data);
      if restored.None? {
        return;
      }
      var id := restored.value.id;
      RestoreCounts(id, data.counts, unsynced);
      if data.scanEvents.Some? {
        scanFeed := LoadedFeed(scanFeed, data.scanEvents.value, id, pendingSyncQueue, businessId);
      }
      currentSession := if currentSession.Some? && currentSession.value.id == id then currentSession else restored;
    }

    method RestoreCounts(id: string, remote: seq<L.Count>, unsynced: Option<string>)
      modifies this`finalCounts
      ensures finalCounts == LoadedCounts(old(finalCounts), remote, id, pendingSyncQueue, businessId, unsynced)
    {
      var pending := PendingCounts(pendingSyncQueue, businessId);
      var seed := SeedRows(finalCounts, id, QueueSessions(pendingSyncQueue, businessId), pending, unsynced);
      finalCounts := MergeCounts(seed, remote, LoadRule(id, pending));
    }

    /** The load of `refreshFromCloud` has answered. */
    method RefreshLoaded(i: nat, data: T.Data)
      requires T.Enabled(Model(), T.LoadSucceeds(i, data)) && loads[i].kind == T.RefreshLoad
      modifies this
      ensures Model() == T.Next(old(Model()), T.LoadSucceeds(i, data))
    {
      var load := TakeLoad(i);
      var current := IsCurrent(load);
      if !current {
        return;
      }
      AcceptRefreshLoad(data);
    }

    method AcceptRefreshLoad(data: T.Data)
      modifies this`products, this`aliases, this`needsReviewQueue, this`sessions, this`finalCounts
      ensures Model() == T.Accept(old(Model()), T.RefreshLoad, data)
    {
      RefreshMergeRows(data);
    }

    method RefreshMergeRows(data: T.Data)
      modifies this`products, this`aliases, this`needsReviewQueue, this`sessions, this`finalCounts
      ensures Rows() == T.RefreshMerge(old(Rows()), pendingSyncQueue, businessId, data)
    {
      var archivedBefore := ArchivedIds(products);
      Reload(data);
      sessions := RefreshedSessions(sessions, currentSession, data.sessions);
      finalCounts := MergeCounts(finalCounts, data.counts,
                                 RefreshRule(PendingCounts(pendingSyncQueue, businessId), ArchivedIds(products),
                                             archivedBefore));
    }

    method LoadFailed(i: nat)
      requires i < |loads|
      modifies this`loads, this`businessDataLoaded
      ensures Model() == T.Next(old(Model()), T.LoadFails(i))
    {
      var load := TakeLoad(i);
      var current := IsCurrent(load);
      if !current {
        return;
      }
      if load.kind == T.ContextLoad {
        businessDataLoaded := true;
      }
    }
  }
}
