/**
 * `JdbcOutputFormatBuilder`: holds one `JdbcOutputFormat`, shared with its base builder, and
 * forwards the JDBC conf, dialect and row converter to it; before the format is built,
 * `checkFormat` insists on a user name and a JDBC url.
 */
module JdbcSink {
  import opened Wrappers
  import opened JavaLang
  import opened LogicalTypes

  /** `FieldConf`: one column of the JDBC conf. */
  datatype FieldConf = FieldConf(name: string, fieldType: string, index: int)

  /** The parts of `JdbcConf` the builders read or write. */
  class JdbcConf {
    var username: JString
    var password: JString
    var jdbcUrl: JString
    var column: seq<FieldConf>
    var mode: JString
    var uniqueKey: Option<seq<string>>

    constructor (username: JString, password: JString, jdbcUrl: JString, uniqueKey: Option<seq<string>>)
      ensures this.username == username && this.password == password && this.jdbcUrl == jdbcUrl
      ensures this.uniqueKey == uniqueKey && column == [] && mode == None
    {
      this.username := username;
      this.password := password;
      this.jdbcUrl := jdbcUrl;
      this.uniqueKey := uniqueKey;
      column := [];
      mode := None;
    }

    method SetColumn(column: seq<FieldConf>)
      modifies this
      ensures this.column == column && mode == old(mode) && uniqueKey == old(uniqueKey)
      ensures username == old(username) && password == old(password) && jdbcUrl == old(jdbcUrl)
    {
      this.column := column;
    }

    method SetMode(mode: string)
      modifies this
      ensures this.mode == Some(mode) && column == old(column) && uniqueKey == old(uniqueKey)
      ensures username == old(username) && password == old(password) && jdbcUrl == old(jdbcUrl)
    {
      this.mode := Some(mode);
    }
  }

  datatype JdbcDialect = MysqlDialect | OtherDialect(name: string)

  /** A row converter, known by its class name and the row type it was built for. */
  datatype RowConverter = RowConverter(name: string, rowType: seq<LogicalType>)

  /** The parts of `JdbcOutputFormat` the builder sets. */
  class JdbcOutputFormat {
    var jdbcConf: JdbcConf?
    var dialect: Option<JdbcDialect>
    var rowConverter: Option<RowConverter>

    constructor ()
      ensures jdbcConf == null && dialect == None && rowConverter == None
    {
      jdbcConf := null;
      dialect := None;
      rowConverter := None;
    }
  }

  /** Failures of `checkFormat`: the IllegalArgumentException it throws, or the
      NullPointerException of reading a conf that was never set. */
  datatype FormatError = IllegalArgument(message: string) | NullPointer

  const NoUsername: string := "No username supplied;\n"
  const NoJdbcUrl: string := "No jdbc url supplied;\n"

  /** The message `checkFormat` accumulates: one line per missing setting, user name first. */
  function MissingSettingsMessage(username: JString, jdbcUrl: JString): (m: string)
    ensures |m| == (if IsBlank(username) then |NoUsername| else 0) + (if IsBlank(jdbcUrl) then |NoJdbcUrl| else 0)
    ensures IsBlank(username) ==> m[..|NoUsername|] == NoUsername
    ensures IsBlank(jdbcUrl) ==> m[|m| - |NoJdbcUrl|..] == NoJdbcUrl
  {
    (if IsBlank(username) then NoUsername else "") + (if IsBlank(jdbcUrl) then NoJdbcUrl else "")
  }

  /** `t` occurs in `s` starting at position `i`. */
  predicate OccursAt(s: string, t: string, i: int) {
    0 <= i && i + |t| <= |s| && s[i..i + |t|] == t
  }

  predicate Contains(s: string, t: string) {
    exists i | 0 <= i <= |s| :: OccursAt(s, t, i)
  }

  lemma NotContainedInOther(s: string, t: string)
    requires |s| == |t| && s != t
    ensures !Contains(s, t)
  {
    forall i ensures !OccursAt(s, t, i) {
      if 0 <= i && i + |t| <= |s| {
        assert s[i..i + |t|] == s;
      }
    }
  }

  lemma ContainedAt(s: string, t: string, i: nat)
    requires OccursAt(s, t, i)
    ensures Contains(s, t)
  {
  }

  lemma MessagesDiffer()
    ensures |NoUsername| == |NoJdbcUrl| == 22 && NoUsername != NoJdbcUrl
  {
    assert NoUsername[3] != NoJdbcUrl[3];
  }

  /** The message names the user name exactly when the user name is blank. */
  lemma MessageNamesUsernameIffBlank(username: JString, jdbcUrl: JString)
    ensures Contains(MissingSettingsMessage(username, jdbcUrl), NoUsername) <==> IsBlank(username)
  {
    var m := MissingSettingsMessage(username, jdbcUrl);
    MessagesDiffer();
    if IsBlank(username) {
      ContainedAt(m, NoUsername, 0);
    } else if IsBlank(jdbcUrl) {
      assert m == NoJdbcUrl;
      NotContainedInOther(NoJdbcUrl, NoUsername);
    } else {
      assert m == "";
    }
  }

  /** The message names the url exactly when the url is blank. */
  lemma MessageNamesUrlIffBlank(username: JString, jdbcUrl: JString)
    ensures Contains(MissingSettingsMessage(username, jdbcUrl), NoJdbcUrl) <==> IsBlank(jdbcUrl)
  {
    var m := MissingSettingsMessage(username, jdbcUrl);
    MessagesDiffer();
    if IsBlank(jdbcUrl) {
      if IsBlank(username) {
        assert m[22..44] == NoJdbcUrl;
        ContainedAt(m, NoJdbcUrl, 22);
      } else {
        ContainedAt(m, NoJdbcUrl, 0);
      }
    } else if IsBlank(username) {
      assert m == NoUsername;
      NotContainedInOther(NoUsername, NoJdbcUrl);
    } else {
      assert m == "";
    }
  }

  /** The message is empty exactly when both settings are present, so the check fails exactly
      when one of them is blank. */
  lemma MessageEmptyIffBothPresent(username: JString, jdbcUrl: JString)
    ensures |MissingSettingsMessage(username, jdbcUrl)| == 0 <==> !IsBlank(username) && !IsBlank(jdbcUrl)
    ensures IsBlank(username) && IsBlank(jdbcUrl) ==>
      MissingSettingsMessage(username, jdbcUrl) == NoUsername + NoJdbcUrl
  {
    MessagesDiffer();
  }

  class JdbcOutputFormatBuilder {
    /** `BaseRichOutputFormatBuilder.config`. */
    var config: object?
    /** `super.format`, the base builder's view of the same format. */
    var baseFormat: JdbcOutputFormat
    var format: JdbcOutputFormat

    /** The builder and its base share one format object. */
    ghost predicate Valid()
      reads this
    {
      baseFormat == format
    }

    constructor (format: JdbcOutputFormat)
      ensures Valid() && this.format == format && config == null
    {
      this.format := format;
      baseFormat := format;
      config := null;
    }

    /** `BaseRichOutputFormatBuilder.setConfig`, taken to store the conf in the builder. */
    method SetConfig(config: object)
      modifies this
      ensures this.config == config && format == old(format) && baseFormat == old(baseFormat)
    {
      this.config := config;
    }

    /** `setJdbcConf`: one conf object installed both as the builder's config and on the format. */
    method SetJdbcConf(jdbcConf: JdbcConf)
      requires Valid()
      modifies this, format
      ensures Valid() && format == old(format)
      ensures config == jdbcConf && format.jdbcConf == jdbcConf
      ensures format.dialect == old(format.dialect) && format.rowConverter == old(format.rowConverter)
    {
      SetConfig(jdbcConf);
      format.jdbcConf := jdbcConf;
    }

    /** `setJdbcDialect`: changes the format only. */
    method SetJdbcDialect(dialect: JdbcDialect)
      modifies format
      ensures format.dialect == Some(dialect)
      ensures format.jdbcConf == old(format.jdbcConf) && format.rowConverter == old(format.rowConverter)
    {
      format.dialect := Some(dialect);
    }

    /** `setRowConverter`: changes the format only. */
    method SetRowConverter(rowConverter: RowConverter)
      modifies format
      ensures format.rowConverter == Some(rowConverter)
      ensures format.jdbcConf == old(format.jdbcConf) && format.dialect == old(format.dialect)
    {
      format.rowConverter := Some(rowConverter);
    }

    /** `checkFormat`: appends one line per blank setting and fails with the accumulated message
        if any was appended; it changes nothing. */
    method CheckFormat() returns (r: Outcome<FormatError>)
      ensures format.jdbcConf == null ==> r == Fail(NullPointer)
      ensures format.jdbcConf != null ==>
        (r.Fail? <==> IsBlank(format.jdbcConf.username) || IsBlank(format.jdbcConf.jdbcUrl))
      ensures format.jdbcConf != null && r.Fail? ==>
        r.error == IllegalArgument(MissingSettingsMessage(format.jdbcConf.username, format.jdbcConf.jdbcUrl))
    {
      var jdbcConf := format.jdbcConf;
      if jdbcConf == null {
        return Fail(NullPointer);
      }
      var sb := "";
      if IsBlank(jdbcConf.username) {
        sb := sb + NoUsername;
      }
      if IsBlank(jdbcConf.jdbcUrl) {
        sb := sb + NoJdbcUrl;
      }
      MessageEmptyIffBothPresent(jdbcConf.username, jdbcConf.jdbcUrl);
      if |sb| > 0 {
        return Fail(IllegalArgument(sb));
      }
      return Pass;
    }
  }
}
