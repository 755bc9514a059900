/** The image panel of the card editor: a cached, reorderable, multi-selectable
    view of `config.images`, where `config` is owned by the host editor. Edits
    go back to the host as "config-changed" events: deletion at once, reorder
    and add through a debounced commit. The timers of the component are
    explicit steps here (FlushDebounce, SettleCheck, ReindexExit), and so is
    the framework's update cycle (ShouldUpdate). */
module Panel {
  import opened ImageList

  /** What the bulk-selection button says and does. */
  datatype BulkAction = SelectAllAction | DeselectAllAction

  /** The label and action of the bulk-selection button: select-all while the
      selection is empty, deselect-all otherwise. */
  function BulkActionFor(selected: set<string>): (a: BulkAction)
    ensures a == SelectAllAction <==> selected == {}
    ensures a == DeselectAllAction <==> |selected| > 0
  {
    if |selected| == 0 then SelectAllAction else DeselectAllAction
  }

  /** Some drag of the run dropped its entry somewhere else than it took it. */
  predicate AnyMove(moves: seq<(nat, nat)>)
  {
    moves != [] && (AnyMove(moves[..|moves| - 1]) || moves[|moves| - 1].0 != moves[|moves| - 1].1)
  }

  class PanelImages {
    /** The configuration property set by the host; absent until it is set. */
    var config: Option<Config>
    /** `_images`: the cached copy of `config.images` that the list renders. */
    var images: seq<Image>
    /** `_selectedItems`: the urls whose checkboxes are ticked. */
    var selected: set<string>
    /** `_newImageUrl`: the url typed into the add field. */
    var newImageUrl: string
    /** `_reindexImages`: while set, a placeholder replaces the list. */
    var reindexing: bool
    /** `config` was assigned since the last update cycle. */
    var configChanged: bool
    /** The debounce timer is armed (at most one is ever outstanding). */
    var commitPending: bool
    /** Armed settle timers of validateImageList. */
    var settleTimers: nat
    /** Armed reindex-exit timers. */
    var exitTimers: nat
    /** Every "config-changed" event fired so far, oldest first. */
    var events: seq<Config>
    /** How many times the drag binding was (re)initialised. */
    var sortableInits: nat

    /** The component's invariant: nothing is cached, selected or scheduled
        before the host provides a configuration; once an update cycle has run
        after the last assignment of `config`, the cache equals `config.images`;
        the placeholder is shown only while an exit timer will remove it. */
    ghost predicate Valid()
      reads this
    {
      && (config.None? ==>
            images == [] && selected == {} && !configChanged && !commitPending && settleTimers == 0)
      && (config.Some? && !configChanged ==> images == config.value.images)
      && (reindexing ==> exitTimers > 0)
    }

    constructor ()
      ensures Valid()
      ensures config == None && images == [] && selected == {} && newImageUrl == ""
      ensures !reindexing && !configChanged && !commitPending
      ensures settleTimers == 0 && exitTimers == 0 && events == [] && sortableInits == 0
    {
      config := None;
      images := [];
      selected := {};
      newImageUrl := "";
      reindexing := false;
      configChanged := false;
      commitPending := false;
      settleTimers := 0;
      exitTimers := 0;
      events := [];
      sortableInits := 0;
    }

    /** The host assigns a new configuration to the `config` property. The
        selection is left as it is. */
    method SetConfig(c: Config)
      requires Valid()
      modifies this
      ensures Valid()
      ensures config == Some(c) && configChanged
      ensures images == old(images) && selected == old(selected) && newImageUrl == old(newImageUrl)
      ensures reindexing == old(reindexing) && commitPending == old(commitPending)
      ensures settleTimers == old(settleTimers) && exitTimers == old(exitTimers)
      ensures events == old(events) && sortableInits == old(sortableInits)
    {
      config := Some(c);
      configChanged := true;
    }

    /** The update cycle: when `config` changed, the cache is replaced by
        exactly `config.images`; the update always proceeds. */
    method ShouldUpdate() returns (proceed: bool)
      requires Valid()
      modifies this
      ensures Valid()
      ensures proceed
      ensures !configChanged
      ensures config.Some? ==> images == config.value.images
      ensures !old(configChanged) ==> images == old(images)
      ensures config == old(config) && selected == old(selected) && newImageUrl == old(newImageUrl)
      ensures reindexing == old(reindexing) && commitPending == old(commitPending)
      ensures settleTimers == old(settleTimers) && exitTimers == old(exitTimers)
      ensures events == old(events) && sortableInits == old(sortableInits)
    {
      if configChanged {
        images := config.value.images;
      }
      configChanged := false;
      proceed := true;
    }

    /** `_configChanged`: fire "config-changed" carrying `config` as it is now. */
    method ConfigChanged()
      requires config.Some?
      modifies this`events
      ensures events == old(events) + [config.value]
    {
      events := events + [config.value];
    }

    /** `_debouncedConfigChanged()`: arm the debounce timer, or restart it when
        it is already armed; nothing is sent yet. */
    method DebouncedConfigChanged()
      requires config.Some?
      modifies this`commitPending
      ensures commitPending
    {
      commitPending := true;
    }

    /** The debounce timer fires: one event, carrying `config` as it stands at
        this moment, however many commits were scheduled before. */
    method FlushDebounce()
      requires Valid() && commitPending
      modifies this
      ensures Valid()
      ensures config == old(config) && images == old(images) && selected == old(selected)
      ensures events == old(events) + [config.value]
      ensures !commitPending
      ensures newImageUrl == old(newImageUrl) && reindexing == old(reindexing)
      ensures configChanged == old(configChanged)
      ensures settleTimers == old(settleTimers) && exitTimers == old(exitTimers)
      ensures sortableInits == old(sortableInits)
    {
      ConfigChanged();
      commitPending := false;
    }

    /** `initSortable`: (re)bind the drag library to the rendered list. */
    method InitSortable()
      modifies this`sortableInits
      ensures sortableInits == old(sortableInits) + 1
    {
      sortableInits := sortableInits + 1;
    }

    /** `_handleSortEnd`: the drag library reports a drop; equal indices do
        nothing at all. */
    method HandleSortEnd(oldIndex: nat, newIndex: nat)
      requires Valid()
      requires oldIndex != newIndex ==> oldIndex < |images| && newIndex < |images|
      modifies this
      ensures Valid()
      ensures oldIndex == newIndex ==>
        config == old(config) && images == old(images) && commitPending == old(commitPending)
        && configChanged == old(configChanged)
      ensures oldIndex != newIndex ==>
        && config.Some? && old(config).Some?
        && config.value == old(config).value.(images := Moved(old(images), oldIndex, newIndex))
        && configChanged && commitPending && images == old(images)
      ensures selected == old(selected) && newImageUrl == old(newImageUrl)
      ensures reindexing == old(reindexing) && events == old(events)
      ensures settleTimers == old(settleTimers) && exitTimers == old(exitTimers)
      ensures sortableInits == old(sortableInits)
    {
      if oldIndex != newIndex {
        ReorderImages(oldIndex, newIndex);
      }
    }

    /** `_reorderImages`: move the entry of the CACHED list `_images` from
        `oldIndex` to `newIndex` in a fresh copy, install a new configuration
        that differs from the old one in its images only, and schedule a
        debounced commit. */
    method ReorderImages(oldIndex: nat, newIndex: nat)
      requires Valid()
      requires oldIndex < |images| && newIndex < |images|
      modifies this
      ensures Valid()
      ensures config.Some? && old(config).Some?
      ensures config.value == old(config).value.(images := Moved(old(images), oldIndex, newIndex))
      ensures configChanged && commitPending
      ensures images == old(images) && selected == old(selected) && newImageUrl == old(newImageUrl)
      ensures reindexing == old(reindexing) && events == old(events)
      ensures settleTimers == old(settleTimers) && exitTimers == old(exitTimers)
      ensures sortableInits == old(sortableInits)
    {
      var configImages := SpliceMove(images, oldIndex, newIndex);
      config := Some(config.value.(images := configImages));
      configChanged := true;
      DebouncedConfigChanged();
    }

    /** `_toggleSelection`: a row checkbox changed; exactly `url` enters or
        leaves the selection. */
    method ToggleSelection(url: string, checked: bool)
      requires Valid() && config.Some?
      modifies this`selected
      ensures Valid()
      ensures checked ==> selected == old(selected) + {url}
      ensures !checked ==> selected == old(selected) - {url}
    {
      if checked {
        selected := selected + {url};
      } else {
        selected := selected - {url};
      }
    }

    /** `_deselectAllItems`: empty the selection. */
    method DeselectAllItems()
      requires Valid()
      modifies this`selected
      ensures Valid()
      ensures selected == {}
    {
      selected := {};
    }

    /** `_selectAll`: clear the selection, then add the url of every entry of
        `config.images` (not of the cache), one entry at a time. */
    method SelectAll()
      requires Valid() && config.Some?
      modifies this`selected
      ensures Valid()
      ensures selected == Urls(config.value.images)
    {
      var list := config.value.images;
      selected := {};
      var k := 0;
      while k < |list|
        invariant 0 <= k <= |list|
        invariant selected == Urls(list[..k])
      {
        assert list[..k + 1][..k] == list[..k];
        selected := selected + {list[k].url};
        k := k + 1;
      }
      assert list[..k] == list;
    }

    /** The bulk-selection button, whose label and action are chosen from the
        selection when the panel renders. */
    method BulkSelect()
      requires Valid() && config.Some?
      modifies this`selected
      ensures Valid()
      ensures old(selected) == {} ==> selected == Urls(config.value.images)
      ensures old(selected) != {} ==> selected == {}
    {
      match BulkActionFor(selected)
      case SelectAllAction => SelectAll();
      case DeselectAllAction => DeselectAllItems();
    }

    /** `_deleteSelectedItems`: with an empty selection, nothing happens.
        Otherwise fire one event at once, carrying `config` with the unselected
        entries of `config.images` in their order, clear the selection, and
        arm the settle timer. The local `config` itself is not changed. */
    method DeleteSelectedItems()
      requires Valid()
      modifies this
      ensures Valid()
      ensures old(selected) == {} ==>
        selected == {} && events == old(events) && settleTimers == old(settleTimers)
      ensures old(selected) != {} ==>
        && config.Some?
        && events == old(events) + [config.value.(images := Kept(config.value.images, old(selected)))]
        && selected == {} && settleTimers == old(settleTimers) + 1
      ensures config == old(config) && images == old(images) && newImageUrl == old(newImageUrl)
      ensures reindexing == old(reindexing) && configChanged == old(configChanged)
      ensures commitPending == old(commitPending) && exitTimers == old(exitTimers)
      ensures sortableInits == old(sortableInits)
    {
      if selected == {} {
        return;
      }
      var kept := Kept(config.value.images, selected);
      selected := {};
      events := events + [config.value.(images := kept)];
      ValidateImageList();
    }

    /** `validateImageList`: arm the settle timer. */
    method ValidateImageList()
      requires Valid() && config.Some?
      modifies this`settleTimers
      ensures Valid()
      ensures settleTimers == old(settleTimers) + 1
    {
      settleTimers := settleTimers + 1;
    }

    /** The settle timer fires: the rendered row count is compared with
        `config.images`; on a mismatch the placeholder goes up and an exit
        timer is armed, otherwise nothing else changes. */
    method SettleCheck(renderedCount: nat)
      requires Valid() && settleTimers > 0
      modifies this
      ensures Valid()
      ensures config.Some?
      ensures settleTimers == old(settleTimers) - 1
      ensures renderedCount == |config.value.images| ==>
        reindexing == old(reindexing) && exitTimers == old(exitTimers)
      ensures renderedCount != |config.value.images| ==>
        reindexing && exitTimers == old(exitTimers) + 1
      ensures config == old(config) && images == old(images) && selected == old(selected)
      ensures newImageUrl == old(newImageUrl) && configChanged == old(configChanged)
      ensures commitPending == old(commitPending) && events == old(events)
      ensures sortableInits == old(sortableInits)
    {
      settleTimers := settleTimers - 1;
      if renderedCount != |config.value.images| {
        reindexing := true;
        exitTimers := exitTimers + 1;
      }
    }

    /** The exit timer fires: the list comes back and the drag binding is
        initialised once more. */
    method ReindexExit()
      requires Valid() && exitTimers > 0
      modifies this
      ensures Valid()
      ensures !reindexing && exitTimers == old(exitTimers) - 1
      ensures sortableInits == old(sortableInits) + 1
      ensures config == old(config) && images == old(images) && selected == old(selected)
      ensures newImageUrl == old(newImageUrl) && configChanged == old(configChanged)
      ensures commitPending == old(commitPending) && events == old(events)
      ensures settleTimers == old(settleTimers)
    {
      exitTimers := exitTimers - 1;
      reindexing := false;
      InitSortable();
    }

    /** `toggleAddButton`: typing in the add field. A non-empty value becomes
        the pending url; an empty one leaves the previous pending url. */
    method ToggleAddButton(value: string)
      requires Valid()
      modifies this`newImageUrl
      ensures Valid()
      ensures newImageUrl == if value != "" then value else old(newImageUrl)
    {
      if |value| > 0 {
        newImageUrl := value;
      }
    }

    /** `addNewImageUrl`: with a pending url and a configuration, append the
        entry {url, title: url} to `config.images`, install the new
        configuration, clear the pending url and schedule a debounced commit;
        otherwise do nothing. */
    method AddNewImageUrl()
      requires Valid()
      modifies this
      ensures Valid()
      ensures (old(newImageUrl) == "" || old(config).None?) ==>
        config == old(config) && newImageUrl == old(newImageUrl)
        && configChanged == old(configChanged) && commitPending == old(commitPending)
      ensures old(newImageUrl) != "" && old(config).Some? ==>
        && config.Some?
        && config.value == old(config).value.(images :=
             old(config).value.images + [Image(old(newImageUrl), old(newImageUrl))])
        && newImageUrl == "" && configChanged && commitPending
      ensures images == old(images) && selected == old(selected) && reindexing == old(reindexing)
      ensures events == old(events) && settleTimers == old(settleTimers)
      ensures exitTimers == old(exitTimers) && sortableInits == old(sortableInits)
    {
      if newImageUrl == "" || config.None? {
        return;
      }
      var list := config.value.images + [Image(newImageUrl, newImageUrl)];
      config := Some(config.value.(images := list));
      configChanged := true;
      newImageUrl := "";
      DebouncedConfigChanged();
    }

    // -------------------------------------------------------------------------
    // Runs of several steps
    // -------------------------------------------------------------------------

    /** One drag followed by its update cycle: the cache and `config.images`
        both become the moved list, and a commit is due from then on if the
        drop changed the position. */
    method DragAndUpdate(oldIndex: nat, newIndex: nat)
      requires Valid() && config.Some? && !configChanged
      requires oldIndex < |images| && newIndex < |images|
      modifies this
      ensures Valid() && config.Some? && !configChanged
      ensures images == Moved(old(images), oldIndex, newIndex)
      ensures config.value == old(config).value.(images := images)
      ensures commitPending == (old(commitPending) || oldIndex != newIndex)
      ensures events == old(events)
      ensures selected == old(selected) && newImageUrl == old(newImageUrl)
      ensures reindexing == old(reindexing) && settleTimers == old(settleTimers)
      ensures exitTimers == old(exitTimers) && sortableInits == old(sortableInits)
    {
      if oldIndex == newIndex {
        MovedSame(images, oldIndex);
      }
      HandleSortEnd(oldIndex, newIndex);
      var _ := ShouldUpdate();
    }

    /** A burst of drags, each followed by its update cycle, then the debounce
        timer: at most one event is fired, exactly one if the burst moved
        anything or a commit was already due, and it carries the list after
        the last drag. */
    method DragBurst(moves: seq<(nat, nat)>)
      requires Valid() && config.Some? && !configChanged
      requires forall k :: 0 <= k < |moves| ==> moves[k].0 < |images| && moves[k].1 < |images|
      modifies this
      ensures Valid() && !commitPending && config.Some?
      ensures config.value == old(config).value.(images := MovedAll(old(images), moves))
      ensures images == config.value.images
      ensures old(commitPending) || AnyMove(moves) ==> events == old(events) + [config.value]
      ensures !old(commitPending) && !AnyMove(moves) ==> events == old(events)
      ensures !configChanged
      ensures selected == old(selected) && newImageUrl == old(newImageUrl)
      ensures reindexing == old(reindexing) && settleTimers == old(settleTimers)
      ensures exitTimers == old(exitTimers) && sortableInits == old(sortableInits)
    {
      ghost var start := images;
      ghost var base := config.value;
      var i := 0;
      while i < |moves|
        invariant 0 <= i <= |moves|
        invariant Valid() && config.Some? && !configChanged
        invariant images == MovedAll(start, moves[..i])
        invariant config.value == base.(images := images)
        invariant events == old(events)
        invariant commitPending == (old(commitPending) || AnyMove(moves[..i]))
        invariant selected == old(selected) && newImageUrl == old(newImageUrl)
        invariant reindexing == old(reindexing) && settleTimers == old(settleTimers)
        invariant exitTimers == old(exitTimers) && sortableInits == old(sortableInits)
      {
        assert moves[..i + 1][..i] == moves[..i];
        DragAndUpdate(moves[i].0, moves[i].1);
        i := i + 1;
      }
      assert moves[..i] == moves;
      if commitPending {
        FlushDebounce();
      }
    }

    /** One reconciliation cycle: the settle timer fires and, when the counts
        differ, so does the exit timer it arms. The placeholder is gone
        afterwards and the drag binding was initialised exactly once; when the
        counts agree nothing changes. */
    method Reconcile(renderedCount: nat)
      requires Valid() && settleTimers > 0
      modifies this
      ensures Valid() && config.Some?
      ensures settleTimers == old(settleTimers) - 1 && exitTimers == old(exitTimers)
      ensures renderedCount != |config.value.images| ==>
        !reindexing && sortableInits == old(sortableInits) + 1
      ensures renderedCount == |config.value.images| ==>
        reindexing == old(reindexing) && sortableInits == old(sortableInits)
      ensures config == old(config) && images == old(images) && selected == old(selected)
      ensures newImageUrl == old(newImageUrl) && configChanged == old(configChanged)
      ensures commitPending == old(commitPending) && events == old(events)
    {
      SettleCheck(renderedCount);
      if renderedCount != |config.value.images| {
        ReindexExit();
      }
    }
  }
}
