/** The generator configuration (`Sapone\Config`). */
module Configuration {
  import opened Wrappers
  import opened Php

  const AUTOLOADER_PSR0: string := "psr0"
  const AUTOLOADER_PSR4: string := "psr4"

  /** A snapshot of every field of a `Config` object; `None` is a field never set (null). */
  datatype Settings = Settings(
    autoloader: string,
    wsdlDocumentPath: Option<string>,
    outputPath: Option<string>,
    namespace: Option<string>,
    splEnums: bool,
    axisNamespaces: bool,
    accessors: bool,
    nullConstructorArguments: Option<bool>,
    besimpleClient: Option<bool>)

  /** The values a fresh `Config` holds. */
  function Defaults(): Settings {
    Settings(AUTOLOADER_PSR4, None, None, None, false, false, false, None, None)
  }

  /** `(bool) $flag` for a boolean field that may still be null. */
  predicate IsOn(flag: Option<bool>) {
    flag == Some(true)
  }

  /** The test `setAutoloader` applies: the lower-cased name is one of the two autoloaders. */
  predicate AcceptsAutoloader(v: string) {
    ToLower(v) == AUTOLOADER_PSR0 || ToLower(v) == AUTOLOADER_PSR4
  }

  /** The strict `getAutoloader() === Config::AUTOLOADER_PSR0` test of the output-path code. */
  predicate UsesPsr0Layout(s: Settings) {
    s.autoloader == AUTOLOADER_PSR0
  }

  /** The autoloader check compares case-insensitively, the layout check case-sensitively. */
  lemma UpperCasePsr0IsAcceptedButNotLaidOut(s: Settings)
    ensures AcceptsAutoloader("PSR0")
    ensures !UsesPsr0Layout(s.(autoloader := "PSR0"))
  {
    assert ToLower("PSR0") == "psr0";
  }

  class Config {
    var autoloader: string
    var wsdlDocumentPath: Option<string>
    var outputPath: Option<string>
    var namespace: Option<string>
    var splEnums: bool
    var axisNamespaces: bool
    var accessors: bool
    var nullConstructorArguments: Option<bool>
    var besimpleClient: Option<bool>

    /** The getters, all at once. */
    function Values(): Settings
      reads this
    {
      Settings(autoloader, wsdlDocumentPath, outputPath, namespace,
        splEnums, axisNamespaces, accessors, nullConstructorArguments, besimpleClient)
    }

    constructor ()
      ensures Values() == Defaults()
    {
      autoloader := AUTOLOADER_PSR4;
      splEnums := false;
      axisNamespaces := false;
      accessors := false;
      wsdlDocumentPath := None;
      outputPath := None;
      namespace := None;
      nullConstructorArguments := None;
      besimpleClient := None;
    }

    method SetOutputPath(outputPath: string)
      modifies this
      ensures Values() == old(Values()).(outputPath := Some(outputPath))
    {
      this.outputPath := Some(outputPath);
    }

    method SetWsdlDocumentPath(wsdlDocumentPath: string)
      modifies this
      ensures Values() == old(Values()).(wsdlDocumentPath := Some(wsdlDocumentPath))
    {
      this.wsdlDocumentPath := Some(wsdlDocumentPath);
    }

    /**
     * Stores the autoloader as given (in its own case) when its lower-case
     * form is `psr0` or `psr4`; otherwise throws and changes nothing.
     */
    method SetAutoloader(autoloader: string) returns (thrown: Option<Error>)
      modifies this
      ensures thrown.None? <==> AcceptsAutoloader(autoloader)
      ensures thrown.Some? ==> thrown.value.InvalidArgument? && Values() == old(Values())
      ensures thrown.None? ==> Values() == old(Values()).(autoloader := autoloader)
    {
      var lower := ToLower(autoloader);
      if lower != AUTOLOADER_PSR0 && lower != AUTOLOADER_PSR4 {
        return Some(InvalidArgument("Invalid autoloader: '" + autoloader + "'"));
      }
      this.autoloader := autoloader;
      thrown := None;
    }

    method SetNamespace(namespace: string)
      modifies this
      ensures Values() == old(Values()).(namespace := Some(namespace))
    {
      this.namespace := Some(namespace);
    }

    method SetSplEnums(splEnums: bool)
      modifies this
      ensures Values() == old(Values()).(splEnums := splEnums)
    {
      this.splEnums := splEnums;
    }

    method SetAxisNamespaces(axisNamespaces: bool)
      modifies this
      ensures Values() == old(Values()).(axisNamespaces := axisNamespaces)
    {
      this.axisNamespaces := axisNamespaces;
    }

    method SetAccessors(accessors: bool)
      modifies this
      ensures Values() == old(Values()).(accessors := accessors)
    {
      this.accessors := accessors;
    }

    method SetNullConstructorArguments(nullConstructorArguments: bool)
      modifies this
      ensures Values() == old(Values()).(nullConstructorArguments := Some(nullConstructorArguments))
    {
      this.nullConstructorArguments := Some(nullConstructorArguments);
    }

    method SetBesimpleClient(besimpleClient: bool)
      modifies this
      ensures Values() == old(Values()).(besimpleClient := Some(besimpleClient))
    {
      this.besimpleClient := Some(besimpleClient);
    }
  }
}
