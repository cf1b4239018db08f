/** `Protocol`: the closed table of JDBC protocols, each rendered as
    `jdbc:` and its subcomponents, every part followed by `:`. */
module Protocols {
  import opened Text

  const DELIMITER: string := ":"

  datatype Protocol =
    | MySql
    | MySqlLoadBalance
    | MySqlReplication
    | MySqlSrv
    | MySqlSrvLoadBalance
    | MySqlSrvReplication
    | OracleThin
    | PostgreSql
    | Redshift
    | SqlServer

  const All: seq<Protocol> := [
    MySql, MySqlLoadBalance, MySqlReplication, MySqlSrv, MySqlSrvLoadBalance,
    MySqlSrvReplication, OracleThin, PostgreSql, Redshift, SqlServer
  ]

  /** The constructor arguments of each constant. */
  function Subcomponents(p: Protocol): (r: seq<string>)
    ensures 1 <= |r| <= 2
  {
    match p
    case MySql => ["mysql"]
    case MySqlLoadBalance => ["mysql", "loadbalance"]
    case MySqlReplication => ["mysql", "replication"]
    case MySqlSrv => ["mysql+srv"]
    case MySqlSrvLoadBalance => ["mysql+srv", "loadbalance"]
    case MySqlSrvReplication => ["mysql+srv", "replication"]
    case OracleThin => ["oracle", "thin"]
    case PostgreSql => ["postgresql"]
    case Redshift => ["redshift"]
    case SqlServer => ["sqlserver"]
  }

  /** `toString`: a `StringJoiner(":", "", ":")` fed `jdbc` and then the
      subcomponents in order. */
  function ToString(p: Protocol): (r: string)
    ensures |r| >= 6 && r[..5] == "jdbc:" && r[|r| - 1] == ':'
  {
    JoinPrepend("jdbc", Subcomponents(p), DELIMITER);
    Join(["jdbc"] + Subcomponents(p), DELIMITER) + DELIMITER
  }

  /** Every subcomponent is non-empty and free of `:`. */
  lemma SubcomponentsWellFormed(p: Protocol)
    ensures forall i :: 0 <= i < |Subcomponents(p)| ==> |Subcomponents(p)[i]| > 0 && ':' !in Subcomponents(p)[i]
  {
  }

  /** No part contains `:`, so the text's colons are exactly the joiner's. */
  lemma PartsHaveNoColon(items: seq<string>)
    requires forall i :: 0 <= i < |items| ==> ':' !in items[i]
    ensures CountAll(items, ':') == 0
  {
    if |items| > 0 {
      NoColonCount(items[0]);
      PartsHaveNoColon(items[1..]);
    }
  }

  lemma {:induction false} NoColonCount(s: string)
    requires ':' !in s
    ensures Count(s, ':') == 0
  {
    if |s| > 0 {
      assert s[1..] <= s[1..];
      assert forall j :: 0 <= j < |s| - 1 ==> s[1..][j] == s[j + 1];
      NoColonCount(s[1..]);
    }
  }

  /** Every protocol's text starts with `jdbc:`, then the subcomponents
      joined by `:`, and ends with `:`. */
  lemma Shape(p: Protocol)
    ensures ToString(p) == "jdbc:" + Join(Subcomponents(p), DELIMITER) + DELIMITER
    ensures |ToString(p)| >= 6 && ToString(p)[..5] == "jdbc:" && ToString(p)[|ToString(p)| - 1] == ':'
  {
    var subs := Subcomponents(p);
    JoinPrepend("jdbc", subs, DELIMITER);
    assert Join(["jdbc"] + subs, DELIMITER) == "jdbc" + DELIMITER + Join(subs, DELIMITER);
    assert "jdbc" + DELIMITER == "jdbc:";
  }

  /** The text holds one `:` per subcomponent plus the one after `jdbc`. */
  lemma ColonCount(p: Protocol)
    ensures Count(ToString(p), ':') == |Subcomponents(p)| + 1
  {
    SubcomponentsWellFormed(p);
    JoinedColons(Subcomponents(p));
  }

  /** The colon count for any list of colon-free subcomponents. */
  lemma JoinedColons(subs: seq<string>)
    requires forall i :: 0 <= i < |subs| ==> ':' !in subs[i]
    ensures Count(Join(["jdbc"] + subs, DELIMITER) + DELIMITER, ':') == |subs| + 1
  {
    var parts := ["jdbc"] + subs;
    assert parts[0] == "jdbc" && parts[1..] == subs;
    assert forall i :: 0 <= i < |parts| ==> ':' !in parts[i] by {
      forall i | 0 <= i < |parts|
        ensures ':' !in parts[i]
      {
        if i > 0 {
          assert parts[i] == subs[i - 1];
        }
      }
    }
    PartsHaveNoColon(parts);
    CountJoin(parts, ':');
    CountConcat(Join(parts, DELIMITER), DELIMITER, ':');
  }

  /** The text of every constant, written out. */
  function Written(p: Protocol): string {
    match p
    case MySql => "jdbc:mysql:"
    case MySqlLoadBalance => "jdbc:mysql:loadbalance:"
    case MySqlReplication => "jdbc:mysql:replication:"
    case MySqlSrv => "jdbc:mysql+srv:"
    case MySqlSrvLoadBalance => "jdbc:mysql+srv:loadbalance:"
    case MySqlSrvReplication => "jdbc:mysql+srv:replication:"
    case OracleThin => "jdbc:oracle:thin:"
    case PostgreSql => "jdbc:postgresql:"
    case Redshift => "jdbc:redshift:"
    case SqlServer => "jdbc:sqlserver:"
  }

  /** `toString` gives the written-out text of every constant. */
  lemma ToStringTable(p: Protocol)
    ensures ToString(p) == Written(p)
  {
    match p
    case MySql => MySqlText();
    case MySqlLoadBalance => MySqlLoadBalanceText();
    case MySqlReplication => MySqlReplicationText();
    case MySqlSrv => MySqlSrvText();
    case MySqlSrvLoadBalance => MySqlSrvLoadBalanceText();
    case MySqlSrvReplication => MySqlSrvReplicationText();
    case OracleThin => OracleThinText();
    case PostgreSql => PostgreSqlText();
    case Redshift => RedshiftText();
    case SqlServer => SqlServerText();
  }

  lemma MySqlText()
    ensures ToString(MySql) == "jdbc:mysql:"
  {
    Single(MySql, "mysql");
  }

  lemma MySqlLoadBalanceText()
    ensures ToString(MySqlLoadBalance) == "jdbc:mysql:loadbalance:"
  {
    Double(MySqlLoadBalance, "mysql", "loadbalance");
  }

  lemma MySqlReplicationText()
    ensures ToString(MySqlReplication) == "jdbc:mysql:replication:"
  {
    Double(MySqlReplication, "mysql", "replication");
  }

  lemma MySqlSrvText()
    ensures ToString(MySqlSrv) == "jdbc:mysql+srv:"
  {
    Single(MySqlSrv, "mysql+srv");
  }

  lemma MySqlSrvLoadBalanceText()
    ensures ToString(MySqlSrvLoadBalance) == "jdbc:mysql+srv:loadbalance:"
  {
    Double(MySqlSrvLoadBalance, "mysql+srv", "loadbalance");
  }

  lemma MySqlSrvReplicationText()
    ensures ToString(MySqlSrvReplication) == "jdbc:mysql+srv:replication:"
  {
    Double(MySqlSrvReplication, "mysql+srv", "replication");
  }

  lemma OracleThinText()
    ensures ToString(OracleThin) == "jdbc:oracle:thin:"
  {
    Double(OracleThin, "oracle", "thin");
  }

  lemma PostgreSqlText()
    ensures ToString(PostgreSql) == "jdbc:postgresql:"
  {
    Single(PostgreSql, "postgresql");
  }

  lemma RedshiftText()
    ensures ToString(Redshift) == "jdbc:redshift:"
  {
    Single(Redshift, "redshift");
  }

  lemma SqlServerText()
    ensures ToString(SqlServer) == "jdbc:sqlserver:"
  {
    Single(SqlServer, "sqlserver");
  }

  /** A protocol with one subcomponent is `jdbc:<it>:`. */
  lemma Single(p: Protocol, a: string)
    requires Subcomponents(p) == [a]
    ensures ToString(p) == "jdbc:" + a + ":"
  {
    JoinTwo("jdbc", a, DELIMITER);
    assert ["jdbc"] + Subcomponents(p) == ["jdbc", a];
  }

  /** A protocol with two subcomponents is `jdbc:<first>:<second>:`. */
  lemma Double(p: Protocol, a: string, b: string)
    requires Subcomponents(p) == [a, b]
    ensures ToString(p) == "jdbc:" + a + ":" + b + ":"
  {
    JoinThree("jdbc", a, b, DELIMITER);
    assert ["jdbc"] + Subcomponents(p) == ["jdbc", a, b];
  }

  /** The ten constants have pairwise distinct texts. */
  lemma ToStringInjective(p: Protocol, q: Protocol)
    ensures ToString(p) == ToString(q) <==> p == q
  {
    ToStringTable(p);
    ToStringTable(q);
  }

  /** The table lists every protocol once. */
  lemma AllIsComplete(p: Protocol)
    ensures p in All && |All| == 10
  {
  }
}
