/** `Alert.alert(title, message, buttons)` as a value: the button labels in
    order; no buttons stands for the platform's lone OK. */
module Alerts {
  datatype Alert = Alert(title: string, message: string, actions: seq<string>)
}
