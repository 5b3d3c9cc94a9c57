/** The `bookmarks` command group of globus/cli.py: short names for endpoint
    ids, kept in the settings dictionary and edited in place. */
module Bookmarks {
  import opened Outcomes

  /** Bookmark name to endpoint id. */
  type Table = map<string, string>

  /** `_map_endpoint_through_bookmarks` (globus/cli.py:316-323): a bookmark
      name stands for its endpoint id; any other argument is taken to be an
      endpoint id already. */
  function MapEndpoint(bookmarks: Table, value: string): (id: string)
    ensures value in bookmarks ==> id == bookmarks[value]
    ensures value !in bookmarks ==> id == value
    ensures id == value || id in bookmarks.Values
  {
    if value in bookmarks then bookmarks[value] else value
  }

  /** The table after `rename`: the entry moves from `name` to `newName`,
      replacing whatever `newName` held. */
  function Renamed(bookmarks: Table, name: string, newName: string): (r: Table)
    requires name in bookmarks
    ensures newName in r && r[newName] == bookmarks[name]
    ensures name != newName ==> name !in r
    ensures forall k :: k != name && k != newName ==>
      (k in r <==> k in bookmarks) && (k in r ==> r[k] == bookmarks[k])
    ensures |r.Keys| <= |bookmarks.Keys|
  {
    var m := bookmarks - {name};
    assert m.Keys == bookmarks.Keys - {name};
    assert (m[newName := bookmarks[name]]).Keys == m.Keys + {newName};
    m[newName := bookmarks[name]]
  }

  /** A renamed bookmark resolves to the endpoint the old name did, the old
      name (when it differs) no longer resolves through the table, and every
      other argument resolves as before. */
  lemma RenamedResolves(bookmarks: Table, name: string, newName: string, arg: string)
    requires name in bookmarks
    ensures MapEndpoint(Renamed(bookmarks, name, newName), newName) == MapEndpoint(bookmarks, name)
    ensures name != newName ==> MapEndpoint(Renamed(bookmarks, name, newName), name) == name
    ensures arg != name && arg != newName ==>
      MapEndpoint(Renamed(bookmarks, name, newName), arg) == MapEndpoint(bookmarks, arg)
  {
  }

  /** Renaming and renaming back restores the table when the new name was free. */
  lemma RenameBack(bookmarks: Table, name: string, newName: string)
    requires name in bookmarks && newName !in bookmarks
    ensures Renamed(Renamed(bookmarks, name, newName), newName, name) == bookmarks
  {
    var once := Renamed(bookmarks, name, newName);
    var r := Renamed(once, newName, name);
    assert r.Keys == bookmarks.Keys by {
      forall k ensures k in r <==> k in bookmarks {
        if k != name && k != newName {
          assert k in once <==> k in bookmarks;
        }
      }
    }
  }

  /** An added bookmark resolves to its endpoint, and nothing else changes. */
  lemma AddResolves(bookmarks: Table, name: string, endpoint: string, arg: string)
    ensures MapEndpoint(bookmarks[name := endpoint], name) == endpoint
    ensures arg != name ==> MapEndpoint(bookmarks[name := endpoint], arg) == MapEndpoint(bookmarks, arg)
  {
  }

  /** After `rm` the name resolves to itself and every other argument as before. */
  lemma RemoveResolves(bookmarks: Table, name: string, arg: string)
    ensures MapEndpoint(bookmarks - {name}, name) == name
    ensures arg != name ==> MapEndpoint(bookmarks - {name}, arg) == MapEndpoint(bookmarks, arg)
  {
  }

  /** The settings object the bookmark commands receive, reduced to its
      bookmark table (`settings[BOOKMARKS]`). */
  class Settings {
    var bookmarks: Table

    constructor(initial: Table)
      ensures bookmarks == initial
    {
      bookmarks := initial;
    }

    /** `bookmarks add` (globus/cli.py:240): set or overwrite the entry. */
    method Add(name: string, endpoint: string)
      modifies this
      ensures bookmarks == old(bookmarks)[name := endpoint]
    {
      bookmarks := bookmarks[name := endpoint];
    }

    /** `bookmarks rename` (globus/cli.py:253-256): `pop` raises `KeyError`
        for a missing name before anything is assigned, and `error` exits
        with its default code. */
    method Rename(name: string, newName: string) returns (r: Outcome<()>)
      modifies this
      ensures name !in old(bookmarks) ==> r == Exit(GenericError) && bookmarks == old(bookmarks)
      ensures name in old(bookmarks) ==> r == Done(()) && bookmarks == Renamed(old(bookmarks), name, newName)
    {
      if name !in bookmarks {
        return Exit(GenericError);
      }
      var endpoint := bookmarks[name];
      bookmarks := bookmarks - {name};
      bookmarks := bookmarks[newName := endpoint];
      r := Done(());
    }

    /** `bookmarks rm` (globus/cli.py:268-271). */
    method Remove(name: string) returns (r: Outcome<()>)
      modifies this
      ensures name !in old(bookmarks) ==> r == Exit(GenericError) && bookmarks == old(bookmarks)
      ensures name in old(bookmarks) ==> r == Done(()) && bookmarks == old(bookmarks) - {name}
    {
      if name !in bookmarks {
        return Exit(GenericError);
      }
      bookmarks := bookmarks - {name};
      r := Done(());
    }

    /** `bookmarks clear` (globus/cli.py:282-286): the confirmation defaults
        to no and aborts the command unless answered yes. */
    method Clear(confirmed: bool) returns (r: Outcome<()>)
      modifies this
      ensures !confirmed ==> r == Exit(Aborted) && bookmarks == old(bookmarks)
      ensures confirmed ==> r == Done(()) && bookmarks == map[]
    {
      if !confirmed {
        return Exit(Aborted);
      }
      bookmarks := map[];
      r := Done(());
    }
  }
}
