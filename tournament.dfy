// Players and the games they play (assignment 1). A Player lists its games and
// a Game lists its players; adding either side to the other adds the reverse
// entry too, unless it is already there. "Already there" is decided by the
// equals methods: a player is any player of the same name and rank, and a
// game is any game of the same id whose player list is empty alongside, or
// holds every player of, this one.

module Tournament {
  import opened Text

  /** List.containsAll: every player of `other` equals some player of `players`. */
  predicate ContainsAll(players: seq<Player>, other: seq<Player>)
  {
    forall j :: 0 <= j < |other| ==> exists i :: 0 <= i < |players| && other[j].Equals(players[i])
  }

  function Names(players: seq<Player>): (r: seq<string>)
    ensures |r| == |players| && forall k :: 0 <= k < |r| ==> r[k] == players[k].name
  {
    if players == [] then [] else Names(players[..|players| - 1]) + [players[|players| - 1].name]
  }

  function Ids(games: seq<Game>): (r: seq<string>)
    ensures |r| == |games| && forall k :: 0 <= k < |r| ==> r[k] == games[k].id
  {
    if games == [] then [] else Ids(games[..|games| - 1]) + [games[|games| - 1].id]
  }

  class Player {
    const name: string
    const rank: int
    var games: seq<Game>

    /** A new player has played no game. */
    constructor (name: string, rank: int)
      ensures this.name == name && this.rank == rank && games == []
    {
      this.name := name;
      this.rank := rank;
      games := [];
    }

    /** equals: the same name and the same rank; the games are not compared. */
    predicate Equals(other: Player)
    {
      name == other.name && rank == other.rank
    }

    /** getGames().contains(game): some listed game that `game` equals. */
    predicate Lists(game: Game)
      reads this, game, games
    {
      exists i :: 0 <= i < |games| && game.Equals(games[i])
    }

    /**
     * addGame: the game is appended, even when already listed; the game then
     * gets this player unless it has an equal one.
     */
    method AddGame(game: Game)
      modifies this, game
      decreases if game.HasPlayer(this) then 0 else 1, 1
      ensures games == old(games) + [game]
      ensures game.players == old(game.players) + if old(game.HasPlayer(this)) then [] else [this]
      ensures Lists(game) && game.HasPlayer(this)
    {
      games := games + [game];
      assert game.Equals(games[|games| - 1]);
      if !game.HasPlayer(this) {
        game.AddPlayer(this);
      }
    }

    /** toString: "name, rank", then the id of each game on a line of its own. */
    method ToString() returns (s: string)
      ensures s == PlayerText(name, rank, Ids(games))
    {
      s := name + ", " + IntToString(rank);
      var i := 0;
      while i < |games|
        invariant 0 <= i <= |games|
        invariant s == PlayerText(name, rank, Ids(games)[..i])
      {
        JoinSnoc(NL, [name + ", " + IntToString(rank)] + Ids(games)[..i], games[i].id);
        assert [name + ", " + IntToString(rank)] + Ids(games)[..i + 1] == [name + ", " + IntToString(rank)] + Ids(games)[..i] + [games[i].id];
        s := s + NL + games[i].id;
        i := i + 1;
      }
      assert Ids(games)[..i] == Ids(games);
    }
  }

  class Game {
    const id: string
    var players: seq<Player>

    /** A new game has no players. */
    constructor (id: string)
      ensures this.id == id && players == []
    {
      this.id := id;
      players := [];
    }

    /** hasPlayer: some listed player equals `player`. */
    predicate HasPlayer(player: Player)
      reads this
    {
      exists i :: 0 <= i < |players| && player.Equals(players[i])
    }

    /**
     * hasSamePlayers: the same game, or two non-empty player lists of the
     * same length where this one contains every player of the other.
     */
    predicate HasSamePlayers(other: Game)
      reads this, other
    {
      this == other
      || (|players| != 0 && |other.players| != 0 && |players| == |other.players| && ContainsAll(players, other.players))
    }

    /** equals: the same game, or the same id and either no players on both sides or the same players. */
    predicate Equals(other: Game)
      reads this, other
    {
      if this == other then true
      else if |players| == 0 && |other.players| == 0 then id == other.id
      else id == other.id && HasSamePlayers(other)
    }

    /**
     * addPlayer: the player is appended; the player then gets this game
     * unless it lists an equal one, judged with this game's new player list.
     */
    method AddPlayer(player: Player)
      modifies this, player
      decreases 1, 0
      ensures players == old(players) + [player]
      ensures player.games == old(player.games) || player.games == old(player.games) + [this]
      ensures player.games == old(player.games) <==>
        exists i :: 0 <= i < |old(player.games)| && Equals(old(player.games)[i])
      ensures HasPlayer(player) && player.Lists(this)
    {
      players := players + [player];
      assert player.Equals(players[|players| - 1]);
      if !player.Lists(this) {
        player.AddGame(this);
        assert player.games[|player.games| - 1] == this;
      }
    }

    /** toString: the id, then the players' names between brackets, separated by commas. */
    method ToString() returns (s: string)
      ensures s == GameText(id, Names(players))
    {
      s := id + " (";
      var i := 0;
      while i < |players|
        invariant 0 <= i <= |players|
        invariant s == id + " (" + Listed(Names(players)[..i])
      {
        assert Names(players)[..i + 1][..i] == Names(players)[..i];
        s := s + players[i].name + ",";
        i := i + 1;
      }
      assert Names(players)[..i] == Names(players);
      if |players| != 0 {
        ListedJoin(Names(players));
        var k := LastIndexOf(s, ',');
        s := s[..k] + s[k + 1..];
      }
      s := s + ")";
    }
  }

  // ---------------------------------------------------------------------------
  // printed forms

  /** The printed form of a game. */
  function GameText(id: string, names: seq<string>): string
  {
    id + " (" + Join(",", names) + ")"
  }

  /** The printed form of a player. */
  function PlayerText(name: string, rank: int, ids: seq<string>): string
  {
    Join(NL, [name + ", " + IntToString(rank)] + ids)
  }

  /** Each name followed by a comma, as the StringBuilder holds them before the last comma goes. */
  function Listed(names: seq<string>): string
  {
    if names == [] then [] else Listed(names[..|names| - 1]) + names[|names| - 1] + ","
  }

  lemma {:induction false} ListedJoin(names: seq<string>)
    requires names != []
    ensures Listed(names) == Join(",", names) + ","
  {
    var init := names[..|names| - 1];
    if init != [] {
      ListedJoin(init);
      JoinSnoc(",", init, names[|names| - 1]);
      assert init + [names[|names| - 1]] == names;
    } else {
      assert names == [names[0]];
    }
  }

  /** StringBuilder.lastIndexOf(c): the last position of c, or -1. */
  function LastIndexOf(s: string, c: char): (r: int)
    ensures -1 <= r < |s|
    ensures r >= 0 ==> s[r] == c && c !in s[r + 1..]
    ensures r < 0 <==> c !in s
  {
    if |s| == 0 then -1
    else if s[|s| - 1] == c then |s| - 1
    else LastIndexOf(s[..|s| - 1], c)
  }

  /** A game with no players prints its id and empty brackets. */
  lemma NoPlayersText(id: string)
    ensures GameText(id, []) == id + " ()"
  {
  }

  /** The names of the players can be read back between the brackets. */
  lemma GameTextNames(id: string, names: seq<string>)
    requires |names| >= 1
    requires forall k :: 0 <= k < |names| ==> ',' !in names[k]
    ensures var t := GameText(id, names);
      |t| >= |id| + 3 && t[..|id| + 2] == id + " (" && t[|t| - 1] == ')'
      && SplitAll(t[|id| + 2..|t| - 1], ',') == names
  {
    var t := GameText(id, names);
    assert t[|id| + 2..|t| - 1] == Join([','], names);
    SplitAllJoin(names, ',');
  }

  lemma NumberHasNoNewline(i: int)
    ensures '\n' !in IntToString(i)
  {
    var s := IntToString(i);
    if i < 0 {
      assert s[1..] == NatToString(-i);
      assert s == "-" + NatToString(-i);
    }
  }

  /** The lines of a printed player: its name and rank, then the ids of its games in order. */
  lemma PlayerTextLines(name: string, rank: int, ids: seq<string>)
    requires '\n' !in name
    requires forall k :: 0 <= k < |ids| ==> '\n' !in ids[k]
    ensures SplitAll(PlayerText(name, rank, ids), '\n') == [name + ", " + IntToString(rank)] + ids
  {
    NumberHasNoNewline(rank);
    var lines := [name + ", " + IntToString(rank)] + ids;
    assert '\n' !in lines[0];
    SplitAllJoin(lines, '\n');
  }

  // ---------------------------------------------------------------------------
  // equality

  /** The order in which the players were added does not matter to equals. */
  lemma EqualsIgnoresOrder(g1: Game, g2: Game)
    requires g1.id == g2.id && multiset(g1.players) == multiset(g2.players)
    ensures g1.Equals(g2)
  {
    assert |g1.players| == |multiset(g1.players)| == |g2.players|;
    forall j | 0 <= j < |g2.players|
      ensures exists i :: 0 <= i < |g1.players| && g2.players[j].Equals(g1.players[i])
    {
      assert g2.players[j] in multiset(g1.players);
      var i :| 0 <= i < |g1.players| && g1.players[i] == g2.players[j];
      assert g2.players[j].Equals(g1.players[i]);
    }
  }

  /**
   * hasSamePlayers is containment, not equality of the lists as multisets,
   * and so it is not symmetric.
   */
  lemma SamePlayersIsContainment(g1: Game, g2: Game, p: Player, q: Player)
    requires g1 != g2 && g1.players == [p, q] && g2.players == [p, p] && !q.Equals(p)
    ensures g1.HasSamePlayers(g2) && !g2.HasSamePlayers(g1)
    ensures multiset(g1.players) != multiset(g2.players)
  {
    assert p.Equals(g1.players[0]);
    assert q == g1.players[1];
    assert q in multiset(g1.players);
  }

  /**
   * A player added to two games with different ids, once from each side:
   * each lists the other, and the two games have the same players.
   */
  method OnePlayerTwoGames(name: string, rank: int, id1: string, id2: string) returns (same: bool, listed: bool)
    requires id1 != id2
    ensures same && listed
  {
    var p := new Player(name, rank);
    var g1 := new Game(id1);
    var g2 := new Game(id2);
    p.AddGame(g1);
    assert p.games == [g1] && g1.players == [p];
    g2.AddPlayer(p);
    assert g1.players == [p] && g2.players == [p];
    assert p.games == [g1, g2];
    same := g1.HasSamePlayers(g2) && g2.HasSamePlayers(g1);
    listed := |p.games| == 2 && p.games[0] == g1 && p.games[1] == g2 && g1.HasPlayer(p) && g2.HasPlayer(p);
  }

  /**
   * Two games with the same id: once the player is in the first, adding it
   * to the second does not list the second on the player, because the
   * second game, with its new player list, equals the first.
   */
  method SameIdGameNotListed(name: string, rank: int, id: string) returns (g2HasPlayer: bool, gamesListed: int)
    ensures g2HasPlayer && gamesListed == 1
  {
    var p := new Player(name, rank);
    var g1 := new Game(id);
    var g2 := new Game(id);
    p.AddGame(g1);
    assert p.games == [g1] && g1.players == [p];
    g2.AddPlayer(p);
    assert g2.players == [p];
    assert g2.Equals(g1);
    g2HasPlayer := g2.HasPlayer(p);
    gamesListed := |p.games|;
  }
}
