/** The admin setting for the companion email domain (classes/adminsetting_domain.php). */
module AdminSettingDomain {
  import opened Wrappers
  import opened Moodle

  /** The PARAM_RAW cleaning type: the value is stored as entered. */
  const PARAM_RAW: string := "raw"

  /** The fields of admin_setting_configtext that the constructor fills. */
  datatype ConfigText = ConfigText(
    name: string, visiblename: string, description: string, defaultsetting: string,
    paramtype: string, size: Option<int>)

  /** What validate returns: true, or the error string's identifier. */
  datatype Validation = Valid | Invalid(stringid: string)

  const ERROR_EMPTY: string := "error_empty_emaildomain"
  const ERROR_WRONG: string := "error_wrong_emaildomain"

  /** The constructor: the caller's fields (size null by default), always with PARAM_RAW. */
  function NewDomainSetting(name: string, visiblename: string, description: string, defaultsetting: string, size: Option<int>)
    : (setting: ConfigText)
    ensures setting.paramtype == PARAM_RAW
    ensures setting.name == name && setting.defaultsetting == defaultsetting && setting.size == size
    ensures setting.visiblename == visiblename && setting.description == description
  {
    ConfigText(name, visiblename, description, defaultsetting, PARAM_RAW, size)
  }

  /**
   * validate(data), with `validEmail` standing for the host's validate_email:
   * empty input is refused with its own message, otherwise the domain is
   * accepted exactly when 'dummy@' followed by it is a valid address.
   */
  function Validate(data: string, validEmail: string -> bool): (r: Validation)
    ensures PhpEmpty(data) ==> r == Invalid(ERROR_EMPTY)
    ensures !PhpEmpty(data) ==> (r == Valid <==> validEmail("dummy@" + data))
    ensures !PhpEmpty(data) && !validEmail("dummy@" + data) ==> r == Invalid(ERROR_WRONG)
  {
    if PhpEmpty(data) then Invalid(ERROR_EMPTY)
    else
      var dummyaddress := "dummy@" + data;
      if validEmail(dummyaddress) then Valid
      else Invalid(ERROR_WRONG)
  }
}
