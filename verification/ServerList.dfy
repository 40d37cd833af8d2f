/**
 Setting the list of LDAP servers: process_server_list in src/configs.rs, and the calls it makes
 in src/vkldap/mod.rs and src/vkldap/context.rs.

 The URL parser is a parameter.  So is the outcome of each submission to the scheduler: number 0
 is the clearing of the list, number `i + 1` the addition of the i-th URL.
 */
module ServerList {
  import opened Wrappers
  import opened ServerTable

  datatype ListError = Unparsable(piece: string) | SubmissionFailed

  // str::split(" "): the pieces between single spaces, possibly empty.
  function SplitOnSpace(text: string): (pieces: seq<string>)
    ensures pieces != []
  {
    if text == [] then [[]]
    else
      var rest := SplitOnSpace(text[1..]);
      if text[0] == ' ' then [[]] + rest else [[text[0]] + rest[0]] + rest[1..]
  }

  function JoinWithSpace(pieces: seq<string>): string
    requires pieces != []
  {
    if |pieces| == 1 then pieces[0] else pieces[0] + " " + JoinWithSpace(pieces[1..])
  }

  // The pieces are the one way to cut the text at its spaces.
  lemma {:induction false} SplitInvertsJoin(text: string)
    ensures JoinWithSpace(SplitOnSpace(text)) == text
    ensures forall p :: p in SplitOnSpace(text) ==> ' ' !in p
  {
    if text != [] {
      SplitInvertsJoin(text[1..]);
      var rest := SplitOnSpace(text[1..]);
      if text[0] == ' ' {
        assert ([[]] + rest)[1..] == rest;
      } else {
        var pieces := [[text[0]] + rest[0]] + rest[1..];
        assert pieces[1..] == rest[1..];
        assert forall p :: p in rest[1..] ==> p in rest;
      }
    }
  }

  // The URLs of all the pieces, or the first piece that is not a URL.
  function ParseAll(pieces: seq<string>, parse: string -> Option<Url>): Result<seq<Url>, string> {
    if pieces == [] then Ok([])
    else
      var last := |pieces| - 1;
      match ParseAll(pieces[..last], parse)
      case Err(piece) => Err(piece)
      case Ok(urls) =>
        match parse(pieces[last])
        case None => Err(pieces[last])
        case Some(url) => Ok(urls + [url])
  }

  lemma {:induction false} ParseAllMeaning(pieces: seq<string>, parse: string -> Option<Url>)
    ensures match ParseAll(pieces, parse)
            case Ok(urls) =>
              && |urls| == |pieces|
              && forall i :: 0 <= i < |pieces| ==> parse(pieces[i]) == Some(urls[i])
            case Err(piece) =>
              exists i :: 0 <= i < |pieces| && pieces[i] == piece && parse(piece) == None
                && forall j :: 0 <= j < i ==> parse(pieces[j]).Some?
  {
    if pieces != [] {
      var last := |pieces| - 1;
      ParseAllMeaning(pieces[..last], parse);
      if ParseAll(pieces[..last], parse).Err? {
        var i :| 0 <= i < last && pieces[..last][i] == ParseAll(pieces[..last], parse).error
          && parse(pieces[..last][i]) == None
          && forall j :: 0 <= j < i ==> parse(pieces[..last][j]).Some?;
        assert pieces[i] == pieces[..last][i];
        assert forall j :: 0 <= j < i ==> pieces[j] == pieces[..last][j];
      } else {
        assert forall j :: 0 <= j < last ==> pieces[j] == pieces[..last][j];
      }
    }
  }

  lemma {:induction false} ParseAllKeepsError(pieces: seq<string>, parse: string -> Option<Url>, n: nat)
    requires n <= |pieces| && ParseAll(pieces[..n], parse).Err?
    ensures ParseAll(pieces, parse) == ParseAll(pieces[..n], parse)
    decreases |pieces|
  {
    if n == |pieces| {
      assert pieces[..n] == pieces;
    } else {
      var last := |pieces| - 1;
      assert pieces[..last][..n] == pieces[..n];
      ParseAllKeepsError(pieces[..last], parse, n);
    }
  }

  // How many additions go through before the first whose submission fails, at most `n`.
  function Accepted(submitted: nat -> bool, n: nat): (k: nat)
    ensures k <= n
    ensures forall i: nat :: 1 <= i <= k ==> submitted(i)
    ensures k < n ==> !submitted(k + 1)
  {
    if n == 0 then 0
    else
      var k := Accepted(submitted, n - 1);
      if k == n - 1 && submitted(n) then n else k
  }

  // What a list of URLs makes of the table; `connect` tells how the pool of each server came up.
  function ConfiguredServers(urls: seq<Url>, connect: nat -> Option<string>): seq<Server> {
    seq(|urls|, i requires 0 <= i < |urls| =>
      Server(urls[i], i, match connect(i) case None => Healthy case Some(message) => Unhealthy(message), None))
  }

  function ConfiguredPools(first: PoolId, n: nat): seq<PoolId> {
    seq(n, i requires 0 <= i < n => first + i)
  }

  // add_server of the context, with nobody in between.
  method AddServerUrl(ctx: VkLdapContext, url: Url, pool: PoolId, failure: Option<string>)
    modifies ctx`servers, ctx`connPools
    ensures ctx.servers == old(ctx.servers) +
              [Server(url, old(|ctx.servers|), match failure case None => Healthy case Some(m) => Unhealthy(m), None)]
    ensures ctx.connPools == old(ctx.connPools) + [pool]
  {
    var server := ctx.NewServer(url);
    if failure.Some? {
      server := server.(status := Unhealthy(failure.value));
    }
    ctx.AddServer(server, pool);
  }

  method ParseUrls(pieces: seq<string>, parse: string -> Option<Url>) returns (res: Result<seq<Url>, string>)
    ensures res == ParseAll(pieces, parse)
  {
    var urls: seq<Url> := [];
    for i := 0 to |pieces|
      invariant ParseAll(pieces[..i], parse) == Ok(urls)
    {
      assert pieces[..i + 1][..i] == pieces[..i];
      match parse(pieces[i]) {
        case Some(url) => urls := urls + [url];
        case None =>
          ParseAllKeepsError(pieces, parse, i + 1);
          return Err(pieces[i]);
      }
    }
    assert pieces[..|pieces|] == pieces;
    res := Ok(urls);
  }

  method AddUrls(ctx: VkLdapContext, urls: seq<Url>, submitted: nat -> bool, firstPool: PoolId,
                 connect: nat -> Option<string>)
    returns (res: Result<(), ListError>)
    requires ctx.servers == [] && ctx.connPools == []
    modifies ctx`servers, ctx`connPools
    ensures var n := Accepted(submitted, |urls|);
            && ctx.servers == ConfiguredServers(urls[..n], connect)
            && ctx.connPools == ConfiguredPools(firstPool, n)
            && res == if n == |urls| then Ok(()) else Err(SubmissionFailed)
  {
    var k: nat := 0;
    while k < |urls|
      invariant k <= |urls| && forall i: nat :: 1 <= i <= k ==> submitted(i)
      invariant ctx.servers == ConfiguredServers(urls[..k], connect)
      invariant ctx.connPools == ConfiguredPools(firstPool, k)
    {
      if !submitted(k + 1) {
        return Err(SubmissionFailed);
      }
      AddServerUrl(ctx, urls[k], firstPool + k, connect(k));
      k := k + 1;
    }
    res := Ok(());
  }

  method ProcessServerList(ctx: VkLdapContext, list: string, parse: string -> Option<Url>, ready: bool,
                           submitted: nat -> bool, firstPool: PoolId, connect: nat -> Option<string>)
    returns (res: Result<(), ListError>, shutDown: seq<PoolId>)
    modifies ctx`servers, ctx`connPools
    ensures var urls := if list == "" then Ok([]) else ParseAll(SplitOnSpace(list), parse);
            if urls.Err? || !ready || !submitted(0) then
              && ctx.servers == old(ctx.servers) && ctx.connPools == old(ctx.connPools) && shutDown == []
              && res == if urls.Err? then Err(Unparsable(urls.error))
                        else if ready then Err(SubmissionFailed) else Ok(())
            else
              var n := Accepted(submitted, |urls.value|);
              && ctx.servers == ConfiguredServers(urls.value[..n], connect)
              && ctx.connPools == ConfiguredPools(firstPool, n)
              && shutDown == old(ctx.connPools)
              && res == if n == |urls.value| then Ok(()) else Err(SubmissionFailed)
  {
    shutDown := [];
    var urls: Result<seq<Url>, string> := Ok([]);
    if list != "" {
      urls := ParseUrls(SplitOnSpace(list), parse);
      if urls.Err? {
        return Err(Unparsable(urls.error)), [];
      }
    }
    if !ready {
      return Ok(()), [];
    }
    if !submitted(0) {
      return Err(SubmissionFailed), [];
    }
    shutDown := ctx.ClearServerList();
    res := AddUrls(ctx, urls.value, submitted, firstPool, connect);
  }

  // With every submission accepted, the table is exactly the given list, whatever it was before.
  lemma SuccessIsTheList(urls: seq<Url>, connect: nat -> Option<string>, firstPool: PoolId)
    ensures var servers, pools := ConfiguredServers(urls, connect), ConfiguredPools(firstPool, |urls|);
            && WellShaped(servers, pools)
            && |servers| == |urls|
            && (forall i :: 0 <= i < |urls| ==> servers[i].url == urls[i])
            && (forall i :: 0 <= i < |urls| ==> servers[i].id == i && servers[i].pingTime == None)
            && (forall i :: 0 <= i < |urls| ==> (servers[i].status == Healthy <==> connect(i) == None))
            && (forall i :: 0 <= i < |urls| && connect(i).Some? ==> servers[i].status == Unhealthy(connect(i).value))
            && (forall i, j :: 0 <= i < j < |pools| ==> pools[i] != pools[j])
  {
  }
}
