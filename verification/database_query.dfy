/** `DatabaseQuery`: the connection details a data-binding query needs, the
    connection string built from them, and the checks `ExecuteSQL` makes
    around the query. Running the query is the parameter `database`. */
module DatabaseQuery {

  import opened Wrappers
  import opened Text
  import Localization

  datatype DatabaseType = MSSQL | POSTGRE | Oracle

  /** `DatabaseSettings`; a string property nobody set is null. */
  datatype DatabaseSettings = DatabaseSettings(
    host: Option<string>,
    port: nat,
    serviceName: Option<string>,
    user: Option<string>,
    password: Option<string>,
    query: Option<string>,
    databaseType: DatabaseType)

  /** `new DatabaseSettings()`: port 1521 and service "ee11", the rest unset. */
  const DefaultSettings: DatabaseSettings :=
    DatabaseSettings(Option.None, 1521, Some("ee11"), Option.None, Option.None, Option.None, MSSQL)

  /** `VerifyConnectionString`. The source tests the password twice and never
      looks at the service name. */
  predicate VerifyConnectionString(s: DatabaseSettings) {
    !(IsNullOrEmpty(s.host) || IsNullOrEmpty(s.password) || IsNullOrEmpty(s.user) || IsNullOrEmpty(s.password))
  }

  lemma VerifyConnectionStringIff(s: DatabaseSettings)
    ensures VerifyConnectionString(s) <==>
              && s.host.Some? && |s.host.value| > 0
              && s.user.Some? && |s.user.value| > 0
              && s.password.Some? && |s.password.value| > 0
    ensures VerifyConnectionString(s) <==> VerifyConnectionString(s.(serviceName := Option.None))
  {
  }

  // ---------------------------------------------------------------------------
  // Connection strings

  const OracleHead: string := "Data Source=(DESCRIPTION =" + "(ADDRESS = (PROTOCOL = TCP)(HOST = "
  const OracleMiddle: string := "))" + "(CONNECT_DATA =" + "(SERVER = DEDICATED)" + "(SERVICE_NAME = "

  /** The `key=value` settings of each database's connection string, in order. */
  function Segments(databaseType: DatabaseType, host: string, port: nat, serviceName: string,
                    user: string, password: string): seq<string>
  {
    match databaseType
    case Oracle =>
      [OracleHead + host + ")(PORT = " + Decimal(port) + OracleMiddle + serviceName + ")))",
       "User Id=" + user, "Password=" + password]
    case MSSQL =>
      ["Data Source=" + host + "," + Decimal(port), "User Id=" + user, "Password=" + password]
    case POSTGRE =>
      ["User ID=" + user, "Password=" + password, "Host=" + host, "Port=" + Decimal(port)] + PoolingSegments
  }

  /** `CreateDatabaseConnectionString`: every setting followed by ';'. A null
      value is interpolated as nothing. */
  function ConnectionString(databaseType: DatabaseType, host: Option<string>, port: nat,
                            serviceName: Option<string>, user: Option<string>, password: Option<string>)
    : (r: string)
    ensures |r| > 0 && r[|r| - 1] == ';'
  {
    var pieces := Segments(databaseType, OrEmpty(host), port, OrEmpty(serviceName), OrEmpty(user), OrEmpty(password));
    TerminatedEnds(pieces, ';');
    Terminated(pieces, ';')
  }

  function ConnectionStringOf(s: DatabaseSettings): (r: string)
    ensures r == ConnectionString(s.databaseType, s.host, s.port, s.serviceName, s.user, s.password)
  {
    ConnectionString(s.databaseType, s.host, s.port, s.serviceName, s.user, s.password)
  }

  /** Values free of ';' are read back from the string in order. */
  lemma ConnectionStringSplits(databaseType: DatabaseType, host: string, port: nat, serviceName: string,
                               user: string, password: string)
    requires ';' !in host && ';' !in serviceName && ';' !in user && ';' !in password
    ensures Split(ConnectionString(databaseType, Some(host), port, Some(serviceName), Some(user), Some(password)), ';')
            == Segments(databaseType, host, port, serviceName, user, password)
  {
    var pieces := Segments(databaseType, host, port, serviceName, user, password);
    DecimalHasNoSemicolon(port);
    FixedTextsHaveNoSemicolon();
    FieldNamesHaveNoSemicolon();
    SplitTerminated(pieces, ';');
  }

  // The literal pieces of the connection strings carry no ';'. The facts are
  // spread over the small lemmas below so that no single proof has to unfold
  // every literal at once.
  lemma FixedTextsHaveNoSemicolon()
    ensures ';' !in OracleHead && ';' !in OracleMiddle && ';' !in ")(PORT = " && ';' !in ")))"
  {
    OracleHeadParts();
    AbsentFromBoth(';', "Data Source=(DESCRIPTION =", "(ADDRESS = (PROTOCOL = TCP)(HOST = ");
    OracleMiddleParts();
    AbsentFromBoth(';', "))", "(CONNECT_DATA =");
    AbsentFromBoth(';', "))" + "(CONNECT_DATA =", "(SERVER = DEDICATED)");
    AbsentFromBoth(';', "))" + "(CONNECT_DATA =" + "(SERVER = DEDICATED)", "(SERVICE_NAME = ");
  }

  lemma OracleHeadParts()
    ensures ';' !in "Data Source=(DESCRIPTION ="
    ensures ';' !in "(ADDRESS = (PROTOCOL = TCP)(HOST = "
  {
  }

  lemma OracleMiddleParts()
    ensures ';' !in "))" && ';' !in "(CONNECT_DATA ="
    ensures ';' !in "(SERVER = DEDICATED)" && ';' !in "(SERVICE_NAME = "
  {
  }

  lemma AbsentFromBoth(c: char, a: string, b: string)
    requires c !in a && c !in b
    ensures c !in a + b
  {
  }

  lemma FieldNamesHaveNoSemicolon()
    ensures ';' !in "Data Source=" && ';' !in "," && ';' !in "User Id=" && ';' !in "Password="
    ensures ';' !in "User ID=" && ';' !in "Host=" && ';' !in "Port="
    ensures ';' !in "Pooling=true" && ';' !in "Min Pool Size=0" && ';' !in "Max Pool Size=100"
    ensures ';' !in "Connection Lifetime=0"
  {
    ShortFieldNames();
    PoolingNames();
  }

  lemma ShortFieldNames()
    ensures ';' !in "Data Source=" && ';' !in "," && ';' !in "User Id=" && ';' !in "Password="
    ensures ';' !in "User ID=" && ';' !in "Host=" && ';' !in "Port="
  {
  }

  lemma PoolingNames()
    ensures ';' !in "Pooling=true" && ';' !in "Min Pool Size=0" && ';' !in "Max Pool Size=100"
    ensures ';' !in "Connection Lifetime=0"
  {
  }

  lemma DecimalHasNoSemicolon(n: nat)
    ensures ';' !in Decimal(n)
  {
    var d := Decimal(n);
    forall i | 0 <= i < |d|
      ensures d[i] != ';'
    {
    }
  }

  /** The MSSQL string, character for character. */
  lemma MssqlForm(host: string, port: nat, serviceName: Option<string>, user: string, password: string)
    ensures ConnectionString(MSSQL, Some(host), port, serviceName, Some(user), Some(password))
            == "Data Source=" + host + "," + Decimal(port) + ";User Id=" + user + ";Password=" + password + ";"
  {
    Terminated3("Data Source=" + host + "," + Decimal(port), "User Id=" + user, "Password=" + password);
  }

  /** The Oracle string: host, port and service inside the DESCRIPTION, then
      user and password. */
  lemma OracleForm(host: string, port: nat, serviceName: string, user: string, password: string)
    ensures ConnectionString(Oracle, Some(host), port, Some(serviceName), Some(user), Some(password))
            == OracleHead + host + ")(PORT = " + Decimal(port) + OracleMiddle + serviceName + ")));"
               + "User Id=" + user + ";Password=" + password + ";"
  {
    Terminated3(OracleHead + host + ")(PORT = " + Decimal(port) + OracleMiddle + serviceName + ")))",
                "User Id=" + user, "Password=" + password);
  }

  /** The PostgreSQL string: user, password, host and port, then the fixed
      pooling settings. */
  lemma PostgreForm(host: string, port: nat, serviceName: Option<string>, user: string, password: string)
    ensures ConnectionString(POSTGRE, Some(host), port, serviceName, Some(user), Some(password))
            == "User ID=" + user + ";" + "Password=" + password + ";" + "Host=" + host + ";"
               + "Port=" + Decimal(port) + ";" + PoolingSuffix
  {
    PostgrePieces(host, port, serviceName, user, password);
    PoolingTail();
    PostgreText(user, password, host, Decimal(port));
  }

  lemma PostgrePieces(host: string, port: nat, serviceName: Option<string>, user: string, password: string)
    ensures ConnectionString(POSTGRE, Some(host), port, serviceName, Some(user), Some(password))
            == Terminated(["User ID=" + user, "Password=" + password, "Host=" + host, "Port=" + Decimal(port)], ';')
               + Terminated(PoolingSegments, ';')
  {
    var head := ["User ID=" + user, "Password=" + password, "Host=" + host, "Port=" + Decimal(port)];
    assert Segments(POSTGRE, host, port, OrEmpty(serviceName), user, password) == head + PoolingSegments;
    TerminatedAppend(head, PoolingSegments, ';');
  }

  lemma PostgreText(user: string, password: string, host: string, port: string)
    ensures Terminated(["User ID=" + user, "Password=" + password, "Host=" + host, "Port=" + port], ';') + PoolingSuffix
            == "User ID=" + user + ";" + "Password=" + password + ";" + "Host=" + host + ";"
               + "Port=" + port + ";" + PoolingSuffix
  {
    Terminated4Then("User ID=" + user, "Password=" + password, "Host=" + host, "Port=" + port, PoolingSuffix);
  }

  lemma Terminated4Then(a: string, b: string, c: string, d: string, suffix: string)
    ensures Terminated([a, b, c, d], ';') + suffix == a + ";" + b + ";" + c + ";" + d + ";" + suffix
  {
    Terminated4(a, b, c, d);
  }

  lemma PoolingTail()
    ensures Terminated(PoolingSegments, ';') == PoolingSuffix
  {
    Terminated4("Pooling=true", "Min Pool Size=0", "Max Pool Size=100", "Connection Lifetime=0");
  }

  lemma Terminated3(a: string, b: string, c: string)
    ensures Terminated([a, b, c], ';') == a + ";" + b + ";" + c + ";"
  {
    assert [c][1..] == [];
    assert Terminated([c], ';') == c + ";";
    assert [b, c][1..] == [c];
    assert Terminated([b, c], ';') == b + ";" + (c + ";");
    assert [a, b, c][1..] == [b, c];
    assert Terminated([a, b, c], ';') == a + ";" + (b + ";" + (c + ";"));
  }

  lemma Terminated4(a: string, b: string, c: string, d: string)
    ensures Terminated([a, b, c, d], ';') == a + ";" + b + ";" + c + ";" + d + ";"
  {
    assert [a, b, c, d][1..] == [b, c, d];
    Terminated3(b, c, d);
    assert Terminated([a, b, c, d], ';') == a + ";" + (b + ";" + c + ";" + d + ";");
  }

  const PoolingSegments: seq<string> := ["Pooling=true", "Min Pool Size=0", "Max Pool Size=100", "Connection Lifetime=0"]

  const PoolingSuffix: string := "Pooling=true;" + "Min Pool Size=0;" + "Max Pool Size=100;" + "Connection Lifetime=0;"

  lemma {:induction false} TerminatedAppend(a: seq<string>, b: seq<string>, c: char)
    ensures Terminated(a + b, c) == Terminated(a, c) + Terminated(b, c)
    decreases |a|
  {
    if |a| == 0 {
      assert a + b == b;
    } else {
      assert (a + b)[1..] == a[1..] + b;
      TerminatedAppend(a[1..], b, c);
    }
  }

  // ---------------------------------------------------------------------------
  // Running the query

  /** A result table: its name, its column names and its rows. */
  datatype Table = Table(name: string, columns: seq<string>, rows: seq<seq<string>>)

  /** What the database does with a query on a connection string: fill a
      table, or throw. */
  datatype Fetch = Filled(table: Table) | FetchThrows(message: string)

  /** `QueryToDataTable(connectionString, query, databaseType)`: no query, no
      connection. */
  function QueryToDataTable(connectionString: string, query: Option<string>, databaseType: DatabaseType,
                            database: (DatabaseType, string, string) -> Fetch): (r: Option<Fetch>)
    ensures IsNullOrEmpty(query) <==> r.None?
    ensures r.Some? ==> r.value == database(databaseType, connectionString, query.value)
  {
    if IsNullOrEmpty(query) then Option.None else Some(database(databaseType, connectionString, query.value))
  }

  /** The null query is answered before the database is consulted. */
  lemma EmptyQueryNeedsNoDatabase(connectionString: string, databaseType: DatabaseType,
                                  db1: (DatabaseType, string, string) -> Fetch,
                                  db2: (DatabaseType, string, string) -> Fetch)
    ensures QueryToDataTable(connectionString, Some(""), databaseType, db1)
            == QueryToDataTable(connectionString, Some(""), databaseType, db2)
            == Option.None
  {
  }

  datatype SqlResult = SqlResult(table: Option<Table>, isSuccessful: bool, errorMessage: string)

  const EmptyQueryMessage: string := Localization.Dash2(Localization.Error, Localization.EmptyQuery)
  const InvalidConnectionStringMessage: string :=
    Localization.Dash2(Localization.Error, Localization.InvalidConnectionString)

  /** `ExecuteSQL`. */
  function ExecuteSql(s: DatabaseSettings, database: (DatabaseType, string, string) -> Fetch): (r: SqlResult)
    // the query is checked first, then the credentials
    ensures IsNullOrEmpty(s.query) ==> r == SqlResult(Option.None, false, EmptyQueryMessage)
    ensures !IsNullOrEmpty(s.query) && !VerifyConnectionString(s) ==>
              r == SqlResult(Option.None, false, InvalidConnectionStringMessage)
    // a table exactly on success
    ensures r.isSuccessful <==> r.table.Some?
    ensures r.isSuccessful <==>
              !IsNullOrEmpty(s.query) && VerifyConnectionString(s)
              && database(s.databaseType, ConnectionStringOf(s), s.query.value).Filled?
    // the database's exception text is the message
    ensures !IsNullOrEmpty(s.query) && VerifyConnectionString(s)
            && database(s.databaseType, ConnectionStringOf(s), s.query.value).FetchThrows? ==>
              r == SqlResult(Option.None, false, database(s.databaseType, ConnectionStringOf(s), s.query.value).message)
    // the table is renamed and its columns lower-cased, one for one
    ensures r.isSuccessful ==>
              var filled := database(s.databaseType, ConnectionStringOf(s), s.query.value).table;
              && r.errorMessage == ""
              && r.table.value.name == "Binding"
              && r.table.value.rows == filled.rows
              && |r.table.value.columns| == |filled.columns|
              && forall i :: 0 <= i < |filled.columns| ==> r.table.value.columns[i] == ToLower(filled.columns[i])
  {
    if IsNullOrEmpty(s.query) then SqlResult(Option.None, false, EmptyQueryMessage)
    else if !VerifyConnectionString(s) then SqlResult(Option.None, false, InvalidConnectionStringMessage)
    else
      match QueryToDataTable(ConnectionStringOf(s), s.query, s.databaseType, database).value
      case FetchThrows(message) => SqlResult(Option.None, false, message)
      case Filled(table) =>
        SqlResult(Some(table.(name := "Binding", columns := LowerColumns(table.columns))), true, "")
  }

  /** The renaming loop over the columns. */
  function LowerColumns(columns: seq<string>): (r: seq<string>)
    ensures |r| == |columns|
    ensures forall i :: 0 <= i < |columns| ==> r[i] == ToLower(columns[i])
  {
    if |columns| == 0 then [] else [ToLower(columns[0])] + LowerColumns(columns[1..])
  }

  /** Renaming a second time changes nothing. */
  lemma LowerColumnsIdempotent(columns: seq<string>)
    ensures LowerColumns(LowerColumns(columns)) == LowerColumns(columns)
  {
    var once := LowerColumns(columns);
    forall i | 0 <= i < |once|
      ensures LowerColumns(once)[i] == once[i]
    {
      ToLowerIdempotent(columns[i]);
    }
  }

  /** Settings nobody filled in are refused for the missing query. */
  lemma DefaultSettingsRefused(database: (DatabaseType, string, string) -> Fetch)
    ensures ExecuteSql(DefaultSettings, database) == SqlResult(Option.None, false, EmptyQueryMessage)
  {
  }
}
